/**
  Whitespace handling of the webhook: the picker's normalisation
  `replace(/[\n\s]+/g, ' ').trim()` and the removal of trailing whitespace
  from the generated text, `replace(/[\n\s]+$/g, '')`.
 */
module Whitespace {

  /** The characters of the ECMAScript class `\s` (WhiteSpace and LineTerminator),
      which is also the set String.prototype.trim removes. `[\n\s]` is the same class. */
  predicate IsSpace(c: char) {
    || c == ' ' || c == '\t' || c == '\n' || c == '\r' || c == '\U{B}' || c == '\U{C}'
    || c == '\U{A0}' || c == '\U{1680}' || ('\U{2000}' <= c <= '\U{200A}')
    || c == '\U{2028}' || c == '\U{2029}' || c == '\U{202F}' || c == '\U{205F}'
    || c == '\U{3000}' || c == '\U{FEFF}'
  }

  predicate AllSpace(s: string) {
    forall i :: 0 <= i < |s| ==> IsSpace(s[i])
  }

  /** No two neighbouring characters are both whitespace. */
  predicate NoAdjacentSpace(s: string) {
    forall i :: 0 <= i < |s| - 1 ==> !IsSpace(s[i]) || !IsSpace(s[i + 1])
  }

  /** Every whitespace character left is a plain blank. */
  predicate SpacesAreBlank(s: string) {
    forall i :: 0 <= i < |s| && IsSpace(s[i]) ==> s[i] == ' '
  }

  /** The shape of the picker's normalised text: trimmed at both ends, and
      every separator a single blank. */
  predicate Normalized(s: string) {
    && (s == [] || (!IsSpace(s[0]) && !IsSpace(s[|s| - 1])))
    && NoAdjacentSpace(s)
    && SpacesAreBlank(s)
  }

  /** The non-whitespace characters of s, in order. */
  function NonSpace(s: string): string {
    if s == [] then [] else (if IsSpace(s[0]) then [] else [s[0]]) + NonSpace(s[1..])
  }

  /** Leading whitespace removed: the leading half of String.prototype.trim. */
  function TrimStart(s: string): (r: string)
    ensures |r| <= |s| && r == s[|s| - |r|..]
    ensures r == [] || !IsSpace(r[0])
  {
    if s != [] && IsSpace(s[0]) then TrimStart(s[1..]) else s
  }

  /** Trailing whitespace removed: the trailing half of String.prototype.trim,
      and also what `replace(/[\n\s]+$/g, '')` does, since the leftmost match of a
      whitespace run anchored at the end is the whole trailing run. */
  function TrimEnd(s: string): (r: string)
    ensures |r| <= |s| && r == s[..|r|]
    ensures r == [] || !IsSpace(r[|r| - 1])
  {
    if s != [] && IsSpace(s[|s| - 1]) then TrimEnd(s[..|s| - 1]) else s
  }

  /** TrimStart removes whitespace only. */
  lemma {:induction false} TrimStartRemovesSpace(s: string)
    ensures forall i :: 0 <= i < |s| - |TrimStart(s)| ==> IsSpace(s[i])
    decreases |s|
  {
    if s != [] && IsSpace(s[0]) {
      var tail := s[1..];
      TrimStartRemovesSpace(tail);
      assert TrimStart(s) == TrimStart(tail);
      forall i | 0 < i < |s| - |TrimStart(s)|
        ensures IsSpace(s[i])
      {
        assert s[i] == tail[i - 1];
      }
    }
  }

  /** TrimEnd removes whitespace only. */
  lemma {:induction false} TrimEndRemovesSpace(s: string)
    ensures forall i :: |TrimEnd(s)| <= i < |s| ==> IsSpace(s[i])
    decreases |s|
  {
    if s != [] && IsSpace(s[|s| - 1]) {
      var init := s[..|s| - 1];
      TrimEndRemovesSpace(init);
      assert TrimEnd(s) == TrimEnd(init);
      forall i | |TrimEnd(s)| <= i < |s| - 1
        ensures IsSpace(s[i])
      {
        assert s[i] == init[i];
      }
    }
  }

  /** String.prototype.trim. */
  function Trim(s: string): string {
    TrimEnd(TrimStart(s))
  }

  /** Every maximal run of whitespace replaced by one blank: `replace(/[\n\s]+/g, ' ')`. */
  function CollapseRuns(s: string): string
    decreases |s|
  {
    if s == [] then []
    else if IsSpace(s[0]) then
      var rest := TrimStart(s);
      [' '] + CollapseRuns(rest)
    else [s[0]] + CollapseRuns(s[1..])
  }

  /** The picker's normalisation (index.ts line 55). */
  function Normalize(s: string): string {
    Trim(CollapseRuns(s))
  }

  lemma NonSpaceCons(s: string)
    requires s != []
    ensures NonSpace(s) == (if IsSpace(s[0]) then [] else [s[0]]) + NonSpace(s[1..])
  {
  }

  lemma {:induction false} NonSpaceOfAllSpace(s: string)
    requires AllSpace(s)
    ensures NonSpace(s) == []
    decreases |s|
  {
    if s != [] {
      NonSpaceOfAllSpace(s[1..]);
    }
  }

  /** Dropping a whitespace-only prefix keeps the non-whitespace characters. */
  lemma {:induction false} NonSpaceOfSpacePrefix(s: string, k: nat)
    requires k <= |s|
    requires forall i :: 0 <= i < k ==> IsSpace(s[i])
    ensures NonSpace(s[k..]) == NonSpace(s)
    decreases k
  {
    if k == 0 {
      assert s[k..] == s;
    } else {
      var tail := s[1..];
      assert forall i :: 0 <= i < k - 1 ==> IsSpace(tail[i]) by {
        forall i | 0 <= i < k - 1
          ensures IsSpace(tail[i])
        {
          assert tail[i] == s[i + 1];
        }
      }
      NonSpaceOfSpacePrefix(tail, k - 1);
      assert tail[k - 1..] == s[k..];
    }
  }

  /** Dropping a whitespace-only suffix keeps the non-whitespace characters. */
  lemma {:induction false} NonSpaceOfSpaceSuffix(s: string, k: nat)
    requires k <= |s|
    requires forall i :: k <= i < |s| ==> IsSpace(s[i])
    ensures NonSpace(s[..k]) == NonSpace(s)
    decreases k
  {
    if k == 0 {
      NonSpaceOfAllSpace(s);
      assert s[..k] == [];
    } else {
      var tail := s[1..];
      assert forall i :: k - 1 <= i < |tail| ==> IsSpace(tail[i]) by {
        forall i | k - 1 <= i < |tail|
          ensures IsSpace(tail[i])
        {
          assert tail[i] == s[i + 1];
        }
      }
      NonSpaceOfSpaceSuffix(tail, k - 1);
      var p := s[..k];
      assert p[0] == s[0] && p[1..] == tail[..k - 1];
      NonSpaceCons(p);
      NonSpaceCons(s);
    }
  }

  /** After collapsing, no two neighbouring characters are whitespace and every
      whitespace character is a blank; the non-whitespace characters are those
      of the input, in order; and the result is empty, or starts with
      whitespace, exactly when the input is or does. */
  lemma {:induction false} CollapseRunsProperties(s: string)
    ensures var r := CollapseRuns(s);
      && NoAdjacentSpace(r) && SpacesAreBlank(r)
      && NonSpace(r) == NonSpace(s)
      && (|r| == 0 <==> |s| == 0)
      && (r != [] ==> (IsSpace(r[0]) <==> IsSpace(s[0])))
    decreases |s|
  {
    if s != [] {
      var rest := if IsSpace(s[0]) then TrimStart(s) else s[1..];
      var head: string := if IsSpace(s[0]) then [' '] else [s[0]];
      CollapseRunsProperties(rest);
      var tail := CollapseRuns(rest);
      var r := head + tail;
      assert CollapseRuns(s) == r;
      assert NonSpace(r) == NonSpace(s) by {
        NonSpaceCons(r);
        assert r[1..] == tail;
        if IsSpace(s[0]) {
          TrimStartRemovesSpace(s);
          NonSpaceOfSpacePrefix(s, |s| - |rest|);
        } else {
          NonSpaceCons(s);
        }
      }
      assert NoAdjacentSpace(r) && SpacesAreBlank(r) by {
        if IsSpace(s[0]) {
          assert tail == [] || !IsSpace(tail[0]);
        }
        SeparatorsCons(head, tail);
      }
    }
  }

  /** A one-character string put before a string with single blank separators
      keeps them, when the two do not meet in whitespace. */
  lemma SeparatorsCons(head: string, tail: string)
    requires |head| == 1 && (IsSpace(head[0]) ==> head[0] == ' ')
    requires NoAdjacentSpace(tail) && SpacesAreBlank(tail)
    requires tail == [] || !IsSpace(head[0]) || !IsSpace(tail[0])
    ensures NoAdjacentSpace(head + tail) && SpacesAreBlank(head + tail)
  {
    var s := head + tail;
    forall k | 0 <= k < |s| - 1
      ensures !IsSpace(s[k]) || !IsSpace(s[k + 1])
    {
      if k > 0 { assert s[k] == tail[k - 1] && s[k + 1] == tail[k]; }
    }
    forall k | 0 <= k < |s| && IsSpace(s[k])
      ensures s[k] == ' '
    {
      if k > 0 { assert s[k] == tail[k - 1]; }
    }
  }

  /** Trimming removes only whitespace and leaves no whitespace at either end. */
  lemma TrimProperties(s: string)
    ensures var r := Trim(s);
      && (r == [] || (!IsSpace(r[0]) && !IsSpace(r[|r| - 1])))
      && NonSpace(r) == NonSpace(s)
  {
    var t := TrimStart(s);
    var r := TrimEnd(t);
    TrimStartRemovesSpace(s);
    TrimEndRemovesSpace(t);
    NonSpaceOfSpacePrefix(s, |s| - |t|);
    NonSpaceOfSpaceSuffix(t, |r|);
    if r != [] { assert r[0] == t[0]; }
  }

  /** A substring of a string with single blank separators has them too. */
  lemma SubstringKeepsSeparators(s: string, t: string, i: nat, j: nat)
    requires i <= j <= |s| && t == s[i..j]
    requires NoAdjacentSpace(s) && SpacesAreBlank(s)
    ensures NoAdjacentSpace(t) && SpacesAreBlank(t)
  {
    forall k | 0 <= k < |t| - 1
      ensures !IsSpace(t[k]) || !IsSpace(t[k + 1])
    {
      assert t[k] == s[i + k] && t[k + 1] == s[i + k + 1];
    }
    forall k | 0 <= k < |t| && IsSpace(t[k])
      ensures t[k] == ' '
    {
      assert t[k] == s[i + k];
    }
  }

  /** The picker's text is always in normal form, and it has exactly the
      non-whitespace characters of the user's text, in the same order. */
  lemma NormalizeProperties(s: string)
    ensures Normalized(Normalize(s))
    ensures NonSpace(Normalize(s)) == NonSpace(s)
  {
    CollapseRunsProperties(s);
    TrimOfSeparated(CollapseRuns(s));
  }

  /** Trimming text with single blank separators puts it in normal form. */
  lemma TrimOfSeparated(c: string)
    requires NoAdjacentSpace(c) && SpacesAreBlank(c)
    ensures Normalized(Trim(c))
    ensures NonSpace(Trim(c)) == NonSpace(c)
  {
    TrimProperties(c);
    var t := TrimStart(c);
    SubstringKeepsSeparators(c, t, |c| - |t|, |c|);
    SubstringKeepsSeparators(t, TrimEnd(t), 0, |TrimEnd(t)|);
  }

  /** One step of the collapse over a string that starts with a lone whitespace
      character or with a non-whitespace one. */
  lemma CollapseRunsStep(s: string)
    requires s != []
    requires IsSpace(s[0]) ==> |s| == 1 || !IsSpace(s[1])
    ensures CollapseRuns(s) == (if IsSpace(s[0]) then [' '] else [s[0]]) + CollapseRuns(s[1..])
  {
    if IsSpace(s[0]) {
      var tail := s[1..];
      assert tail == [] || !IsSpace(tail[0]);
      assert TrimStart(s) == TrimStart(tail) == tail;
    }
  }

  /** Text already in normal form has no whitespace run to collapse. */
  lemma {:induction false} CollapseRunsOfSeparated(s: string)
    requires NoAdjacentSpace(s) && SpacesAreBlank(s)
    ensures CollapseRuns(s) == s
    decreases |s|
  {
    if s != [] {
      SubstringKeepsSeparators(s, s[1..], 1, |s|);
      CollapseRunsOfSeparated(s[1..]);
      assert IsSpace(s[0]) ==> |s| == 1 || !IsSpace(s[1]);
      CollapseRunsStep(s);
      assert s == [s[0]] + s[1..];
    }
  }

  /** Normal-form text is left unchanged by the normalisation. */
  lemma NormalizeOfNormalized(s: string)
    requires Normalized(s)
    ensures Normalize(s) == s
  {
    CollapseRunsOfSeparated(s);
    assert TrimStart(s) == s;
    assert TrimEnd(s) == s;
  }

  /** Normalising twice is normalising once. */
  lemma NormalizeIdempotent(s: string)
    ensures Normalize(Normalize(s)) == Normalize(s)
  {
    NormalizeProperties(s);
    NormalizeOfNormalized(Normalize(s));
  }

  /** Leading whitespace is trimmed within a prefix that ends in a
      non-whitespace character; what follows it is untouched. */
  lemma {:induction false} TrimStartAppend(x: string, y: string)
    requires x != [] && !IsSpace(x[|x| - 1])
    ensures TrimStart(x + y) == TrimStart(x) + y
    decreases |x|
  {
    if IsSpace(x[0]) {
      assert (x + y)[0] == x[0];
      assert (x + y)[1..] == x[1..] + y;
      TrimStartAppend(x[1..], y);
    }
  }

  /** Trailing whitespace is trimmed within a suffix that starts with a
      non-whitespace character; what precedes it is untouched. */
  lemma {:induction false} TrimEndAppend(x: string, y: string)
    requires y != [] && !IsSpace(y[0])
    ensures TrimEnd(x + y) == x + TrimEnd(y)
    decreases |y|
  {
    var xy := x + y;
    if IsSpace(y[|y| - 1]) {
      assert xy[|xy| - 1] == y[|y| - 1];
      assert xy[..|xy| - 1] == x + y[..|y| - 1];
      TrimEndAppend(x, y[..|y| - 1]);
    }
  }

  /** A whitespace run in front of a string that does not start with
      whitespace is trimmed away entirely. */
  lemma {:induction false} TrimStartOfRun(w: string, b: string)
    requires AllSpace(w)
    requires b == [] || !IsSpace(b[0])
    ensures TrimStart(w + b) == b
    decreases |w|
  {
    if w == [] {
      assert w + b == b;
    } else {
      assert (w + b)[0] == w[0];
      assert (w + b)[1..] == w[1..] + b;
      TrimStartOfRun(w[1..], b);
    }
  }

  /** Collapsing distributes over a cut that does not fall inside a
      whitespace run. */
  lemma {:induction false} CollapseRunsAppend(a: string, b: string)
    requires a == [] || !IsSpace(a[|a| - 1])
    ensures CollapseRuns(a + b) == CollapseRuns(a) + CollapseRuns(b)
    decreases |a|
  {
    if a == [] {
      assert a + b == b;
    } else if IsSpace(a[0]) {
      var t := TrimStart(a);
      CollapseRunsSpaceStep(a, b);
      CollapseRunsAppend(t, b);
      AppendAssoc([' '], CollapseRuns(t), CollapseRuns(b));
    } else {
      CollapseRunsCharStep(a, b);
      CollapseRunsAppend(a[1..], b);
      AppendAssoc([a[0]], CollapseRuns(a[1..]), CollapseRuns(b));
    }
  }

  lemma AppendAssoc(x: string, y: string, z: string)
    ensures x + (y + z) == (x + y) + z
  {
  }

  /** One step of the collapse of `a + b` when `a` starts with a character
      that is not whitespace. */
  lemma CollapseRunsCharStep(a: string, b: string)
    requires a != [] && !IsSpace(a[0])
    ensures CollapseRuns(a + b) == [a[0]] + CollapseRuns(a[1..] + b)
    ensures CollapseRuns(a) == [a[0]] + CollapseRuns(a[1..])
    ensures a[1..] == [] || a[1..][|a[1..]| - 1] == a[|a| - 1]
  {
    assert (a + b)[0] == a[0];
    assert (a + b)[1..] == a[1..] + b;
  }

  /** One step of the collapse of `a + b` when `a` starts with whitespace and
      ends in a character that is not. */
  lemma CollapseRunsSpaceStep(a: string, b: string)
    requires a != [] && IsSpace(a[0]) && !IsSpace(a[|a| - 1])
    ensures var t := TrimStart(a);
      && |t| < |a| && (t == [] || !IsSpace(t[|t| - 1]))
      && CollapseRuns(a + b) == [' '] + CollapseRuns(t + b)
      && CollapseRuns(a) == [' '] + CollapseRuns(t)
  {
    var t := TrimStart(a);
    assert |t| < |a| && (t == [] || !IsSpace(t[|t| - 1])) by {
      assert t == TrimStart(a[1..]);
      assert t == [] || t[|t| - 1] == a[|a| - 1];
    }
    assert CollapseRuns(a + b) == [' '] + CollapseRuns(t + b) by {
      assert (a + b)[0] == a[0];
      TrimStartAppend(a, b);
    }
  }

  /** A whitespace run in front of a string that does not start with
      whitespace collapses to one blank. */
  lemma CollapseRunsOfRun(w: string, b: string)
    requires w != [] && AllSpace(w)
    requires b == [] || !IsSpace(b[0])
    ensures CollapseRuns(w + b) == [' '] + CollapseRuns(b)
  {
    TrimStartOfRun(w, b);
    assert (w + b)[0] == w[0];
  }

  /** What `replace(/[\n\s]+/g, ' ')` does to one run: a whitespace run, of any
      length and any mix of whitespace characters, between a part that does not
      end in whitespace and a part that does not start with it becomes exactly
      one blank, and each part is collapsed on its own. */
  lemma CollapseRunsSeparates(a: string, w: string, b: string)
    requires a == [] || !IsSpace(a[|a| - 1])
    requires w != [] && AllSpace(w)
    requires b == [] || !IsSpace(b[0])
    ensures CollapseRuns(a + w + b) == CollapseRuns(a) + [' '] + CollapseRuns(b)
  {
    var ca, cb := CollapseRuns(a), CollapseRuns(b);
    assert CollapseRuns(a + (w + b)) == ca + ([' '] + cb) by {
      CollapseRunsAppend(a, w + b);
      CollapseRunsOfRun(w, b);
    }
    AppendAssoc(a, w, b);
    AppendAssoc(ca, [' '], cb);
  }

  /** Collapsing keeps a final non-whitespace character in last place. */
  lemma {:induction false} CollapseRunsLast(a: string)
    requires a != [] && !IsSpace(a[|a| - 1])
    ensures var c := CollapseRuns(a);
      c != [] && c[|c| - 1] == a[|a| - 1]
    decreases |a|
  {
    if IsSpace(a[0]) {
      var t := TrimStart(a);
      TrimStartRemovesSpace(a);
      assert t != [] by {
        if t == [] { assert false; }
      }
      assert t[|t| - 1] == a[|a| - 1];
      assert t == TrimStart(a[1..]);
      CollapseRunsLast(t);
    } else if |a| > 1 {
      CollapseRunsLast(a[1..]);
    }
  }

  /** Trimming two parts joined by one blank, where the blank meets no other
      whitespace, trims each part on its own. */
  lemma TrimJoin(x: string, y: string)
    requires x != [] && !IsSpace(x[|x| - 1])
    requires y != [] && !IsSpace(y[0])
    ensures Trim(x + [' '] + y) == Trim(x) + [' '] + Trim(y)
  {
    var tx := TrimStart(x);
    calc {
      Trim(x + [' '] + y);
      { assert x + [' '] + y == x + ([' '] + y); }
      TrimEnd(TrimStart(x + ([' '] + y)));
      { TrimStartAppend(x, [' '] + y); }
      TrimEnd(tx + ([' '] + y));
      { assert tx + ([' '] + y) == (tx + [' ']) + y; }
      TrimEnd((tx + [' ']) + y);
      { TrimEndAppend(tx + [' '], y); }
      tx + [' '] + TrimEnd(y);
      { assert tx == [] || tx[|tx| - 1] == x[|x| - 1];
        assert TrimEnd(tx) == tx;
        assert TrimStart(y) == y; }
      Trim(x) + [' '] + Trim(y);
    }
  }

  /** The picker's normalisation joins two words separated by a whitespace run
      with exactly one blank: normalising `a + w + b` gives the normalised
      `a`, one blank, and the normalised `b`. */
  lemma NormalizeSeparates(a: string, w: string, b: string)
    requires a != [] && !IsSpace(a[|a| - 1])
    requires w != [] && AllSpace(w)
    requires b != [] && !IsSpace(b[0])
    ensures Normalize(a + w + b) == Normalize(a) + [' '] + Normalize(b)
  {
    var ca := CollapseRuns(a);
    var cb := CollapseRuns(b);
    calc {
      Normalize(a + w + b);
      { CollapseRunsSeparates(a, w, b); }
      Trim(ca + [' '] + cb);
      { CollapseRunsLast(a);
        CollapseRunsProperties(b);
        TrimJoin(ca, cb); }
      Trim(ca) + [' '] + Trim(cb);
    }
  }
}
