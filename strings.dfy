/**
  The three JavaScript string operations the webhook decodes routing data with:
  `split` on a one-character separator, `replace` of the first occurrence of a
  literal pattern, and `startsWith`.
 */
module Strings {
  import opened Wrappers

  /** Position of the first c in s, if any. */
  function IndexOfChar(s: string, c: char): (r: Option<nat>)
    ensures r.None? ==> c !in s
    ensures r.Some? ==> r.value < |s| && s[r.value] == c && c !in s[..r.value]
  {
    if s == [] then None
    else if s[0] == c then Some(0)
    else
      match IndexOfChar(s[1..], c)
      case None => None
      case Some(i) =>
        assert s[..i + 1] == [s[0]] + s[1..][..i];
        Some(i + 1)
  }

  /** Array.prototype.join: the pieces with one separator between neighbours. */
  function Join(pieces: seq<string>, sep: char): string {
    if pieces == [] then []
    else if |pieces| == 1 then pieces[0]
    else pieces[0] + [sep] + Join(pieces[1..], sep)
  }

  /** String.prototype.split with a one-character separator: the pieces between
      separators, so that joining them back gives s and no piece holds sep. */
  function Split(s: string, sep: char): (r: seq<string>)
    ensures |r| >= 1
    ensures forall i :: 0 <= i < |r| ==> sep !in r[i]
    ensures Join(r, sep) == s
    decreases |s|
  {
    match IndexOfChar(s, sep)
    case None => [s]
    case Some(i) =>
      var rest := Split(s[i + 1..], sep);
      assert s == s[..i] + [sep] + s[i + 1..];
      [s[..i]] + rest
  }

  lemma FirstSeparator(p: string, sep: char, t: string)
    requires sep !in p
    ensures IndexOfChar(p + [sep] + t, sep) == Some(|p|)
  {
    var s := p + [sep] + t;
    assert s[|p|] == sep && s[..|p|] == p;
  }

  /** Splitting undoes joining whenever no piece holds the separator. */
  lemma {:induction false} SplitJoin(pieces: seq<string>, sep: char)
    requires |pieces| >= 1
    requires forall i :: 0 <= i < |pieces| ==> sep !in pieces[i]
    ensures Split(Join(pieces, sep), sep) == pieces
    decreases |pieces|
  {
    if |pieces| > 1 {
      var rest := Join(pieces[1..], sep);
      FirstSeparator(pieces[0], sep, rest);
      var s := pieces[0] + [sep] + rest;
      assert s[|pieces[0]| + 1..] == rest;
      assert s[..|pieces[0]|] == pieces[0];
      SplitJoin(pieces[1..], sep);
      assert pieces == [pieces[0]] + pieces[1..];
    } else {
      assert sep !in pieces[0];
    }
  }

  /** p occurs in s starting at position i. */
  predicate OccursAt(s: string, p: string, i: nat) {
    i + |p| <= |s| && s[i..i + |p|] == p
  }

  /** String.prototype.indexOf with a string pattern, searching from position `from`. */
  function IndexOfFrom(s: string, p: string, from: nat): (r: Option<nat>)
    requires from <= |s|
    ensures r.Some? ==> from <= r.value && OccursAt(s, p, r.value)
    ensures r.Some? ==> forall j :: from <= j < r.value ==> !OccursAt(s, p, j)
    ensures r.None? ==> forall j :: from <= j ==> !OccursAt(s, p, j)
    decreases |s| - from
  {
    if OccursAt(s, p, from) then Some(from)
    else if from == |s| then None
    else IndexOfFrom(s, p, from + 1)
  }

  /** String.prototype.replace with a literal pattern: only the first occurrence of
      p is replaced; s is returned unchanged when p does not occur. */
  function ReplaceFirst(s: string, p: string, replacement: string): string {
    match IndexOfFrom(s, p, 0)
    case None => s
    case Some(i) => s[..i] + replacement + s[i + |p|..]
  }

  /** String.prototype.startsWith. */
  predicate StartsWith(s: string, p: string) {
    |p| <= |s| && s[..|p|] == p
  }

  /** When s starts with p, the first occurrence is the prefix, so replacing it
      by nothing removes exactly that prefix. */
  lemma ReplaceFirstOfPrefix(s: string, p: string)
    requires StartsWith(s, p)
    ensures ReplaceFirst(s, p, "") == s[|p|..]
  {
    assert OccursAt(s, p, 0);
  }
}
