/**
  The dispatcher of the webhook (handleEvent and the handlers it calls), as a
  function from one inbound event to the outbound effects it causes, in the
  order the handlers await them. The generative-text call is an input: the
  outcome it would have for the request the handler makes.
 */
module Webhook {
  import opened Wrappers
  import opened Strings
  import opened Whitespace
  import opened Routing
  import opened Messages

  /** An inbound event, narrowed to the shapes the dispatcher tells apart. */
  datatype Event =
    | TextMessageEvent(replyToken: string, userId: string, text: string)
    | PostbackEvent(replyToken: string, userId: string, data: string)
    | OtherEvent

  /** What the completion call comes back with: a thrown error with its
      message, or a response whose first candidate's first part may lack a text. */
  datatype CompletionOutcome =
    | Failed(message: string)
    | Answered(text: Option<string>)

  /** The request sent for a selection: the register key, which selects the
      system instruction, and the user prompt (None where the key names no
      register and the prompt table gives `undefined`). */
  datatype CompletionRequest = CompletionRequest(conversionType: string, prompt: Option<string>)

  /** An outbound call, in the order the handler makes it. */
  datatype Effect =
    | StartLoading(chatId: string, loadingSeconds: nat)
    | RequestCompletion(request: CompletionRequest)
    | Reply(replyToken: string, messages: seq<Message>)

  const LoadingSeconds: nat := 10
  const NextMessagePrompt: string := "次のメッセージを入力してください。"
  const ErrorPrefix: string := "エラーが発生しました: "
  const MissingTextError: string := "エラーが発生しました: Gemini APIからの応答にテキストが含まれていません。"

  /** The user-prompt template of a register, to which the original text is appended. */
  function PromptPrefix(r: Register): string {
    match r
    case Club => "以下のテキストを、部活の場面に適した丁寧な言葉遣いに変換してください。\n\n"
    case Circle => "以下のテキストを、サークルの場面に適した丁寧な言葉遣いに変換してください。\n\n"
    case JobHunting => "以下のテキストを、就職活動の場面に適した丁寧な言葉遣いに変換してください。\n\n"
    case Adult => "以下のテキストを、目上の大人に適した丁寧な言葉遣いに変換してください。\n\n"
  }

  /** The request for a decoded selection (index.ts lines 145-152, 156). */
  function BuildRequest(sel: Selection): CompletionRequest {
    var prompt :=
      match RegisterOfKey(sel.conversionType)
      case None => None
      case Some(r) => Some(PromptPrefix(r) + sel.originalText);
    CompletionRequest(sel.conversionType, prompt)
  }

  /** The messages the completion flow replies with (index.ts lines 155-185). */
  function CompletionReplies(outcome: CompletionOutcome, originalText: string): seq<Message> {
    match outcome
    case Failed(m) => [TextMessage(ErrorPrefix + m)]
    case Answered(text) =>
      if text.None? || text.value == "" then [TextMessage(MissingTextError)]
      else
        var politeText := TrimEnd(text.value);
        [TextMessage(politeText), CreatePoliteTextResponse(politeText, originalText)]
  }

  /** The exact texts the dispatcher takes for a register reply (index.ts lines 192-195). */
  predicate IsRegisterLabel(text: string) {
    text == "部活" || text == "サークル" || text == "就職活動" || text == "目上の大人"
  }

  /** handleTextMessage (index.ts lines 52-59). */
  function HandleTextMessage(replyToken: string, text: string): seq<Effect> {
    [Reply(replyToken, [CreateConversionButtons(Normalize(text))])]
  }

  /** handlePostbackChange (index.ts lines 61-66). */
  function HandlePostbackChange(replyToken: string, data: string): seq<Effect> {
    [Reply(replyToken, [CreateConversionButtons(ChangeText(data))])]
  }

  /** handlePostbackNextMessage (index.ts lines 68-72). */
  function HandlePostbackNextMessage(replyToken: string): seq<Effect> {
    [Reply(replyToken, [TextMessage(NextMessagePrompt)])]
  }

  /** handleQuickReplyResponse (index.ts lines 124-187): nothing for an event that
      is not a postback or whose data does not decode; otherwise the loading
      indicator, the completion request, and one reply. */
  function HandleQuickReplyResponse(event: Event, outcome: CompletionOutcome): seq<Effect> {
    if !event.PostbackEvent? then []
    else
      match ParseSelection(event.data)
      case None => []
      case Some(sel) =>
        [ StartLoading(event.userId, LoadingSeconds),
          RequestCompletion(BuildRequest(sel)),
          Reply(event.replyToken, CompletionReplies(outcome, sel.originalText)) ]
  }

  /** The branches of handleEvent. */
  datatype Route = LabelReply | Picker | Change | NextMessage | Completion | Ignored

  /** The branch handleEvent takes (index.ts lines 190-209), first match winning. */
  function Classify(event: Event): Route {
    match event
    case TextMessageEvent(_, _, text) =>
      if IsRegisterLabel(text) then LabelReply else Picker
    case PostbackEvent(_, _, data) =>
      if StartsWith(data, ChangePrefix) then Change
      else if data == NextMessageData then NextMessage
      else Completion
    case OtherEvent => Ignored
  }

  /** handleEvent (index.ts lines 189-211). */
  function HandleEvent(event: Event, outcome: CompletionOutcome): seq<Effect> {
    match Classify(event)
    case LabelReply => HandleQuickReplyResponse(event, outcome)
    case Picker => HandleTextMessage(event.replyToken, event.text)
    case Change => HandlePostbackChange(event.replyToken, event.data)
    case NextMessage => HandlePostbackNextMessage(event.replyToken)
    case Completion => HandleQuickReplyResponse(event, outcome)
    case Ignored => []
  }
}
