/**
  Routing tokens: the postback `data` strings that carry the conversation
  state between turns, since the webhook keeps no session of its own.
    <register>_<text>   the user picked a register for <text>
    change_<text>       the user wants to pick another register for <text>
    next_message        the user wants to type a new message
 */
module Routing {
  import opened Wrappers
  import opened Strings

  /** The four politeness registers (ConversionType). */
  datatype Register = Club | Circle | JobHunting | Adult

  /** The registers in the order the picker offers them. */
  const Registers: seq<Register> := [Club, Circle, JobHunting, Adult]

  const Separator: char := '_'

  /** The register's key, used in routing data and to index the prompt tables. */
  function Key(r: Register): string {
    match r
    case Club => "club"
    case Circle => "circle"
    case JobHunting => "jobHunting"
    case Adult => "adult"
  }

  /** The register's button label in the picker. */
  function Label(r: Register): string {
    match r
    case Club => "部活"
    case Circle => "サークル"
    case JobHunting => "就職活動"
    case Adult => "目上の大人"
  }

  /** The register named by a key, as the prompt tables are indexed; None where
      a table lookup would give `undefined`. */
  function RegisterOfKey(key: string): (r: Option<Register>)
    ensures r.Some? ==> Key(r.value) == key
    ensures r.None? ==> forall reg: Register :: Key(reg) != key
  {
    if key == "club" then Some(Club)
    else if key == "circle" then Some(Circle)
    else if key == "jobHunting" then Some(JobHunting)
    else if key == "adult" then Some(Adult)
    else None
  }

  /** The data of the picker button for register r (index.ts lines 33-36). */
  function RegisterData(r: Register, text: string): string {
    Key(r) + [Separator] + text
  }

  const ChangePrefix: string := "change_"

  /** The data of the result's "pick another register" button (index.ts line 118). */
  function ChangeData(text: string): string {
    ChangePrefix + text
  }

  /** The data of the result's "next message" button (index.ts line 119). */
  const NextMessageData: string := "next_message"

  /** What the completion flow reads from routing data: the register key and the text. */
  datatype Selection = Selection(conversionType: string, originalText: string)

  /** Decoding of `<register>_<text>` (index.ts lines 136-141): split on every `_`,
      keep the first two pieces, and give up when either is missing or empty. */
  function ParseSelection(data: string): Option<Selection> {
    var pieces := Split(data, Separator);
    if pieces[0] == "" || |pieces| < 2 || pieces[1] == "" then None
    else Some(Selection(pieces[0], pieces[1]))
  }

  /** Decoding of `change_<text>` (index.ts line 62): the first `change_` removed. */
  function ChangeText(data: string): string {
    ReplaceFirst(data, ChangePrefix, "")
  }

  /** Every register is named by its key, and by no other. */
  lemma KeyRoundTrip(r: Register)
    ensures RegisterOfKey(Key(r)) == Some(r)
    ensures Key(r) != "" && Separator !in Key(r)
  {
  }

  /** Data malformed for the completion flow: no `_` at all, nothing before the
      first `_`, or nothing between the first `_` and the next one (or the end). */
  predicate Malformed(data: string) {
    match IndexOfChar(data, Separator)
    case None => true
    case Some(i) =>
      i == 0 || i + 1 == |data| || data[i + 1] == Separator
  }

  /** The decoder rejects exactly the malformed data, and otherwise gives the text
      before the first `_` as the register key and the text up to the next `_` as
      the original text. */
  lemma ParseSelectionSpec(data: string)
    ensures ParseSelection(data).None? <==> Malformed(data)
    ensures ParseSelection(data).Some? ==>
      var i := IndexOfChar(data, Separator).value;
      var rest := data[i + 1..];
      && ParseSelection(data).value.conversionType == data[..i]
      && ParseSelection(data).value.originalText ==
           match IndexOfChar(rest, Separator)
           case None => rest
           case Some(j) => rest[..j]
  {
    var pieces := Split(data, Separator);
    match IndexOfChar(data, Separator)
    case None =>
      assert pieces == [data];
    case Some(i) =>
      var rest := data[i + 1..];
      assert pieces == [data[..i]] + Split(rest, Separator);
      var tail := Split(rest, Separator);
      match IndexOfChar(rest, Separator)
      case None =>
        assert tail == [rest];
      case Some(j) =>
        assert tail == [rest[..j]] + Split(rest[j + 1..], Separator);
        assert rest[j] == Separator;
        assert rest[..j] == [] <==> j == 0;
  }

  /** Round trip of a picker button: for a non-empty text without `_`, decoding
      the button's data gives back exactly the register key and the text. */
  lemma {:induction false} RegisterRoundTrip(r: Register, text: string)
    requires text != "" && Separator !in text
    ensures ParseSelection(RegisterData(r, text)) == Some(Selection(Key(r), text))
  {
    var pieces := [Key(r), text];
    assert Join(pieces, Separator) == RegisterData(r, text);
    SplitJoin(pieces, Separator);
  }

  /** The limitation of splitting on every `_`: when the text holds a `_`, only
      the part before its first `_` comes back, and nothing at all when that
      part is empty. */
  lemma {:induction false} RegisterTruncation(r: Register, text: string)
    requires Separator in text
    ensures var i := IndexOfChar(text, Separator).value;
      ParseSelection(RegisterData(r, text)) ==
        if i == 0 then None else Some(Selection(Key(r), text[..i]))
  {
    var data := RegisterData(r, text);
    FirstSeparator(Key(r), Separator, text);
    assert data[|Key(r)| + 1..] == text && data[..|Key(r)|] == Key(r);
    KeyRoundTrip(r);
    ParseSelectionSpec(data);
  }

  /** A picker built from an empty text yields buttons the decoder rejects. */
  lemma EmptyTextIsRejected(r: Register)
    ensures ParseSelection(RegisterData(r, "")) == None
  {
    var data := RegisterData(r, "");
    FirstSeparator(Key(r), Separator, "");
    assert Malformed(data);
    ParseSelectionSpec(data);
  }

  /** Round trip of the retry button: removing the first `change_` from
      `change_` + text gives back the text, whatever it holds. */
  lemma ChangeRoundTrip(text: string)
    ensures ChangeText(ChangeData(text)) == text
  {
    ReplaceFirstOfPrefix(ChangeData(text), ChangePrefix);
    assert ChangeData(text)[|ChangePrefix|..] == text;
  }
}
