/**
  The outbound chat messages and the two button templates the webhook builds:
  the register picker (createConversionButtons) and the result prompt
  (createPoliteTextResponse).
 */
module Messages {
  import opened Wrappers
  import opened Routing

  /** A button of a buttons template. */
  datatype Action =
    | PostbackAction(buttonLabel: string, data: string, inputOption: Option<string>)
    | ClipboardAction(buttonLabel: string, clipboardText: string)

  /** An outbound message: plain text, or a buttons template. */
  datatype Message =
    | TextMessage(text: string)
    | ButtonsTemplate(altText: string, text: string, actions: seq<Action>)

  const PickerAltText: string := "変換シーンを選択してください"
  const PickerTitle: string := "このメッセージをどのように丁寧にしますか？"
  const ResultAltText: string := "変換されたテキストです"
  const CopyLabel: string := "コピー"
  const ChangeLabel: string := "他のシーンで変換"
  const NextLabel: string := "次のメッセージ"
  const OpenKeyboard: string := "openKeyboard"

  /** The register picker for a text (index.ts lines 26-39). */
  function CreateConversionButtons(originalText: string): Message {
    ButtonsTemplate(PickerAltText, PickerTitle, [
      PostbackAction(Label(Club), RegisterData(Club, originalText), None),
      PostbackAction(Label(Circle), RegisterData(Circle, originalText), None),
      PostbackAction(Label(JobHunting), RegisterData(JobHunting, originalText), None),
      PostbackAction(Label(Adult), RegisterData(Adult, originalText), None)
    ])
  }

  /** The result prompt for a generated text (index.ts lines 110-122): copy the
      text, pick another register for the same original text, or go on. */
  function CreatePoliteTextResponse(politeText: string, originalText: string): Message {
    ButtonsTemplate(ResultAltText, politeText, [
      ClipboardAction(CopyLabel, politeText),
      PostbackAction(ChangeLabel, ChangeData(originalText), None),
      PostbackAction(NextLabel, NextMessageData, Some(OpenKeyboard))
    ])
  }

  /** The picker, titled with the question how to make the message polite,
      offers four postback buttons, one per register in the order club,
      circle, jobHunting, adult, each labelled with its register and carrying
      that register's routing data for the text; and for a non-empty text
      without `_` each button's data decodes back to its register and the text. */
  lemma PickerButtons(text: string)
    ensures var m := CreateConversionButtons(text);
      && m.ButtonsTemplate?
      && m.altText == "変換シーンを選択してください"
      && m.text == "このメッセージをどのように丁寧にしますか？"
      && |m.actions| == |Registers| == 4
      && forall i :: 0 <= i < 4 ==>
           && m.actions[i] == PostbackAction(Label(Registers[i]), Key(Registers[i]) + "_" + text, None)
           && (text != "" && '_' !in text ==>
                 ParseSelection(m.actions[i].data) == Some(Selection(Key(Registers[i]), text))
                 && RegisterOfKey(Key(Registers[i])) == Some(Registers[i]))
  {
    var m := CreateConversionButtons(text);
    forall i | 0 <= i < 4
      ensures text != "" && '_' !in text ==>
        ParseSelection(m.actions[i].data) == Some(Selection(Key(Registers[i]), text))
        && RegisterOfKey(Key(Registers[i])) == Some(Registers[i])
    {
      if text != "" && '_' !in text {
        RegisterRoundTrip(Registers[i], text);
        KeyRoundTrip(Registers[i]);
      }
    }
  }

  /** The result prompt shows the generated text, its copy button copies
      exactly that text, its retry button carries `change_` and the original
      text and decodes back to it whatever that text holds, and its next button
      carries the sentinel and opens the keyboard. */
  lemma ResultButtons(politeText: string, originalText: string)
    ensures var m := CreatePoliteTextResponse(politeText, originalText);
      && m.ButtonsTemplate?
      && m.altText == "変換されたテキストです"
      && m.text == politeText && |m.actions| == 3
      && m.actions[0] == ClipboardAction("コピー", m.text)
      && m.actions[1] == PostbackAction("他のシーンで変換", "change_" + originalText, None)
      && ChangeText(m.actions[1].data) == originalText
      && m.actions[2] == PostbackAction("次のメッセージ", "next_message", Some("openKeyboard"))
  {
    ChangeRoundTrip(originalText);
  }
}
