/**
  What the dispatcher promises: which effects each kind of event causes, how
  the routing data its buttons carry is routed back to it, and the round trip
  of a whole conversation through those buttons.
 */
module WebhookProperties {
  import opened Wrappers
  import opened Strings
  import opened Whitespace
  import opened Routing
  import opened Messages
  import opened Webhook

  /** The labels the dispatcher takes for a register reply are exactly the
      picker's button labels. */
  lemma RegisterLabelsArePickerLabels(text: string)
    ensures IsRegisterLabel(text) <==> exists r: Register :: Label(r) == text
  {
    if IsRegisterLabel(text) {
      var r :=
        if text == Label(Club) then Club
        else if text == Label(Circle) then Circle
        else if text == Label(JobHunting) then JobHunting
        else Adult;
      assert Label(r) == text;
    }
  }

  /** Each kind of routing data the buttons carry reaches the branch meant for
      it: register data the completion flow, retry data the picker, and the
      sentinel the prompt for a new message. */
  lemma TokensRouteAsIntended(replyToken: string, userId: string, r: Register, text: string)
    ensures Classify(PostbackEvent(replyToken, userId, RegisterData(r, text))) == Completion
    ensures Classify(PostbackEvent(replyToken, userId, ChangeData(text))) == Change
    ensures Classify(PostbackEvent(replyToken, userId, NextMessageData)) == NextMessage
  {
    var data := RegisterData(r, text);
    assert data[0] == Key(r)[0] && data[1] == Key(r)[1];
    if |data| >= |ChangePrefix| {
      assert data[..|ChangePrefix|][0] == data[0] && data[..|ChangePrefix|][1] == data[1];
    }
    assert data[0] != NextMessageData[0];
    assert !StartsWith(NextMessageData, ChangePrefix) by {
      assert NextMessageData[0] != ChangePrefix[0];
    }
  }

  /** Whatever the event, the dispatcher causes nothing, or a single reply to
      the event's reply token, or (for a postback only) the loading indicator
      for the sender, one completion request and then a single reply of one or
      two messages. Events other than text messages and postbacks cause nothing. */
  lemma EffectShape(event: Event, outcome: CompletionOutcome)
    ensures var fx := HandleEvent(event, outcome);
      || fx == []
      || (&& !event.OtherEvent? && |fx| == 1 && fx[0].Reply?
          && fx[0].replyToken == event.replyToken && |fx[0].messages| == 1)
      || (&& event.PostbackEvent? && |fx| == 3
          && fx[0] == StartLoading(event.userId, 10)
          && fx[1].RequestCompletion?
          && fx[2].Reply? && fx[2].replyToken == event.replyToken
          && 1 <= |fx[2].messages| <= 2)
    ensures event.OtherEvent? ==> HandleEvent(event, outcome) == []
  {
  }

  /** A text message exactly equal to a register label causes nothing at all:
      the handler it is routed to returns at once for anything but a postback. */
  lemma RegisterLabelTextIsIgnored(replyToken: string, userId: string, r: Register, outcome: CompletionOutcome)
    ensures HandleEvent(TextMessageEvent(replyToken, userId, Label(r)), outcome) == []
  {
    RegisterLabelsArePickerLabels(Label(r));
  }

  /** Any other text message is answered by one picker for its normalised text. */
  lemma TextMessageShowsPicker(replyToken: string, userId: string, text: string, outcome: CompletionOutcome)
    requires !IsRegisterLabel(text)
    ensures var fx := HandleEvent(TextMessageEvent(replyToken, userId, text), outcome);
      && fx == [Reply(replyToken, [CreateConversionButtons(Normalize(text))])]
      && Normalized(Normalize(text))
      && NonSpace(Normalize(text)) == NonSpace(text)
  {
    NormalizeProperties(text);
  }

  /** The sentinel is answered by exactly one fixed text message. */
  lemma NextMessageReply(replyToken: string, userId: string, outcome: CompletionOutcome)
    ensures HandleEvent(PostbackEvent(replyToken, userId, "next_message"), outcome)
      == [Reply(replyToken, [TextMessage("次のメッセージを入力してください。")])]
  {
    TokensRouteAsIntended(replyToken, userId, Club, "");
  }

  /** A retry button shows the picker again for the very text it was built
      for, whatever that text holds. */
  lemma ChangeReshowsPicker(replyToken: string, userId: string, text: string, outcome: CompletionOutcome)
    ensures HandleEvent(PostbackEvent(replyToken, userId, ChangeData(text)), outcome)
      == [Reply(replyToken, [CreateConversionButtons(text)])]
  {
    TokensRouteAsIntended(replyToken, userId, Club, text);
    ChangeRoundTrip(text);
  }

  /** Postback data routed to the completion flow causes nothing at all (no
      loading indicator, no request, no reply) exactly when it is malformed:
      no `_`, an empty register piece, or an empty text piece. */
  lemma MalformedDataIsSilent(replyToken: string, userId: string, data: string, outcome: CompletionOutcome)
    requires Classify(PostbackEvent(replyToken, userId, data)) == Completion
    ensures HandleEvent(PostbackEvent(replyToken, userId, data), outcome) == [] <==> Malformed(data)
  {
    ParseSelectionSpec(data);
  }

  /** The messages of the completion flow: a thrown error gives one text
      embedding its message; a missing or empty generated text gives one fixed
      error text; a generated text gives that text with its trailing
      whitespace removed, then the result prompt whose copy button carries the
      same text, whose retry button carries `change_` and the original text,
      and whose next button carries the sentinel. */
  lemma CompletionMessages(outcome: CompletionOutcome, originalText: string)
    ensures outcome.Failed? ==>
      CompletionReplies(outcome, originalText) == [TextMessage("エラーが発生しました: " + outcome.message)]
    ensures outcome.Answered? && (outcome.text == None || outcome.text == Some("")) ==>
      CompletionReplies(outcome, originalText)
        == [TextMessage("エラーが発生しました: Gemini APIからの応答にテキストが含まれていません。")]
    ensures outcome.Answered? && outcome.text.Some? && outcome.text.value != "" ==>
      var generated := outcome.text.value;
      var msgs := CompletionReplies(outcome, originalText);
      && |msgs| == 2 && msgs[0].TextMessage? && msgs[1].ButtonsTemplate?
      && var polite := msgs[0].text;
      && (polite == [] || !IsSpace(polite[|polite| - 1]))
      && |polite| <= |generated| && polite == generated[..|polite|]
      && (forall i :: |polite| <= i < |generated| ==> IsSpace(generated[i]))
      && msgs[1].altText == "変換されたテキストです"
      && msgs[1].text == polite
      && msgs[1].actions == [
           ClipboardAction("コピー", polite),
           PostbackAction("他のシーンで変換", "change_" + originalText, None),
           PostbackAction("次のメッセージ", "next_message", Some("openKeyboard"))]
  {
    if outcome.Answered? && outcome.text.Some? && outcome.text.value != "" {
      TrimEndRemovesSpace(outcome.text.value);
    }
  }

  /** Well-formed data routed to the completion flow causes, in this order,
      the loading indicator for the sender for 10 seconds, the request for the
      decoded selection, and one reply to the event's token holding the
      completion messages for the decoded text. */
  lemma CompletionReply(replyToken: string, userId: string, data: string, outcome: CompletionOutcome)
    requires Classify(PostbackEvent(replyToken, userId, data)) == Completion
    requires !Malformed(data)
    ensures ParseSelection(data).Some?
    ensures var sel := ParseSelection(data).value;
      HandleEvent(PostbackEvent(replyToken, userId, data), outcome)
      == [StartLoading(userId, 10),
          RequestCompletion(BuildRequest(sel)),
          Reply(replyToken, CompletionReplies(outcome, sel.originalText))]
  {
    ParseSelectionSpec(data);
  }

  /** Pressing a picker button for a non-empty text without `_`, when a text is
      generated: the loading indicator for the sender, the request with that
      register's prompt over exactly the text, and a reply of the trimmed
      generated text followed by the result prompt for the same text. */
  lemma ChooseRegister(replyToken: string, userId: string, r: Register, text: string, generated: string)
    requires text != "" && '_' !in text
    requires generated != ""
    ensures HandleEvent(PostbackEvent(replyToken, userId, RegisterData(r, text)), Answered(Some(generated))) == [
      StartLoading(userId, 10),
      RequestCompletion(CompletionRequest(Key(r), Some(PromptPrefix(r) + text))),
      Reply(replyToken, [TextMessage(TrimEnd(generated)), CreatePoliteTextResponse(TrimEnd(generated), text)])]
  {
    var event := PostbackEvent(replyToken, userId, RegisterData(r, text));
    var sel := Selection(Key(r), text);
    TokensRouteAsIntended(replyToken, userId, r, text);
    RegisterRoundTrip(r, text);
    KeyRoundTrip(r);
    assert BuildRequest(sel) == CompletionRequest(Key(r), Some(PromptPrefix(r) + text));
    assert HandleEvent(event, Answered(Some(generated)))
      == HandleQuickReplyResponse(event, Answered(Some(generated)));
  }

  /** Pressing the i-th button of a picker for a non-empty text without `_`:
      the i-th register of the picker's order is the one requested. */
  lemma PickerButtonCompletes(replyToken: string, userId: string, text: string, i: nat, generated: string)
    requires i < 4
    requires text != "" && '_' !in text
    requires generated != ""
    ensures var r := Registers[i];
      HandleEvent(PostbackEvent(replyToken, userId, CreateConversionButtons(text).actions[i].data), Answered(Some(generated)))
      == [StartLoading(userId, 10),
          RequestCompletion(CompletionRequest(Key(r), Some(PromptPrefix(r) + text))),
          Reply(replyToken, [TextMessage(TrimEnd(generated)), CreatePoliteTextResponse(TrimEnd(generated), text)])]
  {
    assert CreateConversionButtons(text).actions[i].data == RegisterData(Registers[i], text) by {
      assert i == 0 || i == 1 || i == 2 || i == 3;
    }
    ChooseRegister(replyToken, userId, Registers[i], text, generated);
  }

  /** The round trip of a conversation through its own buttons, with no state
      kept between turns: the i-th button of a picker for a non-empty text
      without `_` asks for the i-th register's prompt over exactly that text
      and, once a text is generated, is answered with it and a result prompt;
      that prompt's retry button shows the very same picker again. */
  lemma PickerRoundTrip(
    pickToken: string, retryToken: string, userId: string, text: string,
    i: nat, generated: string, outcome: CompletionOutcome)
    requires i < 4
    requires text != "" && '_' !in text
    requires generated != ""
    ensures var r := Registers[i];
      HandleEvent(PostbackEvent(pickToken, userId, CreateConversionButtons(text).actions[i].data), Answered(Some(generated)))
      == [StartLoading(userId, 10),
          RequestCompletion(CompletionRequest(Key(r), Some(PromptPrefix(r) + text))),
          Reply(pickToken, [TextMessage(TrimEnd(generated)), CreatePoliteTextResponse(TrimEnd(generated), text)])]
    ensures var retry := CreatePoliteTextResponse(TrimEnd(generated), text).actions[1].data;
      HandleEvent(PostbackEvent(retryToken, userId, retry), outcome) == [Reply(retryToken, [CreateConversionButtons(text)])]
  {
    PickerButtonCompletes(pickToken, userId, text, i, generated);
    assert CreatePoliteTextResponse(TrimEnd(generated), text).actions[1].data == ChangeData(text);
    ChangeReshowsPicker(retryToken, userId, text, outcome);
  }
}
