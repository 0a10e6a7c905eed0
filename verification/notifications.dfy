/** Presenting what an app sends while nobody asked: notifications, with
    or without a "Notification from X" header, and errors, as exactly one
    apologetic reply. */
module Notifications {
  import opened Js

  /** An app as the app database describes it. */
  datatype App = App(name: string, isRunning: bool)

  /** `apps.getApp`: `None` for an unknown app id. */
  type Apps = string -> Option<App>

  /** One formatted message. A `Record` is a message object; its `kind` is
      the `type` field. `Scalar` is any other non-object value (a number, a
      boolean, `undefined`), and `Null` is `null`, which JavaScript
      classifies as an object. */
  datatype Message =
    | Text(text: string)
    | Record(kind: Option<string>, body: Option<string>, url: Option<string>, json: Option<string>)
    | Scalar
    | Null

  /** What the formatter returns: one message, or an array of them. */
  datatype Messages = Single(message: Message) | List(messages: seq<Message>)

  /** What the dialog sends to the user. */
  datatype Output =
    | Reply(text: Option<string>, icon: Option<string>)
    | Picture(url: string, icon: Option<string>)
    | Rdl(message: Message, icon: Option<string>)
    | Button(caption: Option<string>, json: Option<string>)

  /** The replies sent, and the failure that cut the rendering short, if
      any. Replies sent before a failure stay sent. */
  datatype Emitted = Emitted(outputs: seq<Output>, failure: Option<JsError>)

  const MissingPicture: string := "Sorry, I can't find the picture you want."

  /** Reading `type` of a `null` message. */
  const NullMessage: JsError := TypeError("Cannot read property 'type' of null")

  /** The message kinds that produce an output. */
  const KnownKinds: set<string> := {"text", "picture", "rdl", "button"}

  /** A message that produces exactly one output. */
  predicate Renders(m: Message) {
    m.Text? || (m.Record? && m.kind.Some? && m.kind.value in KnownKinds)
  }

  /** `notifyOne`: a string is a text message, any other non-object is
      ignored, `null` fails, a message object is shown according to its
      type, and an unknown type shows nothing. */
  function NotifyOne(m: Message, icon: Option<string>): (r: Result<seq<Output>>)
    ensures r.Failure? <==> m.Null?
    ensures r.Failure? ==> r.error == NullMessage
    ensures r.Success? ==> (|r.value| == 1 <==> Renders(m)) && |r.value| <= 1
    ensures m.Text? ==> r == Success([Reply(Some(m.text), icon)])
    ensures m.Record? && m.kind == Some("picture") ==>
      r == Success([if m.url.None? then Reply(Some(MissingPicture), icon) else Picture(m.url.value, icon)])
    ensures m.Record? && m.kind == Some("text") ==> r == Success([Reply(m.body, icon)])
    ensures m.Record? && m.kind == Some("rdl") ==> r == Success([Rdl(m, icon)])
    ensures m.Record? && m.kind == Some("button") ==> r == Success([Button(m.body, m.json)])
  {
    match m
    case Text(s) => Success([Reply(Some(s), icon)])
    case Scalar => Success([])
    case Null => Failure(NullMessage)
    case Record(kind, body, url, json) =>
      if kind == Some("text") then Success([Reply(body, icon)])
      else if kind == Some("picture") then
        Success([if url.None? then Reply(Some(MissingPicture), icon) else Picture(url.value, icon)])
      else if kind == Some("rdl") then Success([Rdl(m, icon)])
      else if kind == Some("button") then Success([Button(body, json)])
      else Success([])
  }

  /** `messages.forEach(notifyOne)`: the outputs of each message in order,
      stopping at the first failure. */
  function RenderAll(ms: seq<Message>, icon: Option<string>): (r: Emitted)
    ensures r.failure.Some? ==> |ms| > 0 && r.failure.value == NullMessage
    ensures |ms| == 0 ==> r == Emitted([], None)
    decreases |ms|
  {
    if |ms| == 0 then Emitted([], None)
    else match NotifyOne(ms[0], icon)
      case Failure(e) => Emitted([], Some(e))
      case Success(out) =>
        var rest := RenderAll(ms[1..], icon);
        Emitted(out + rest.outputs, rest.failure)
  }

  /** Rendering is a fold: rendering `a + b` renders `a`, then `b`, unless
      `a` already failed. */
  lemma {:induction false} RenderAllAppend(a: seq<Message>, b: seq<Message>, icon: Option<string>)
    requires RenderAll(a, icon).failure.None?
    ensures RenderAll(a + b, icon)
         == Emitted(RenderAll(a, icon).outputs + RenderAll(b, icon).outputs, RenderAll(b, icon).failure)
    decreases |a|
  {
    if |a| == 0 {
      assert a + b == b;
    } else {
      DropAppend(a, b);
      RenderAllAppend(a[1..], b, icon);
      Assoc(NotifyOne(a[0], icon).value, RenderAll(a[1..], icon).outputs, RenderAll(b, icon).outputs);
    }
  }

  /** Taking the first element off a concatenation. */
  lemma DropAppend<T>(a: seq<T>, b: seq<T>)
    requires |a| > 0
    ensures (a + b)[0] == a[0] && (a + b)[1..] == a[1..] + b
  {
  }

  /** Concatenation is associative. */
  lemma Assoc<T>(x: seq<T>, y: seq<T>, z: seq<T>)
    ensures x + (y + z) == (x + y) + z
  {
  }

  /** Rendering fails exactly when there is a `null` message, and then
      with the first one; otherwise every message that renders contributes
      one output. */
  lemma {:induction false} RenderAllOutcome(ms: seq<Message>, icon: Option<string>)
    ensures RenderAll(ms, icon).failure.None? <==> forall i :: 0 <= i < |ms| ==> !ms[i].Null?
    ensures RenderAll(ms, icon).failure.Some? ==> RenderAll(ms, icon).failure.value == NullMessage
    ensures |RenderAll(ms, icon).outputs| <= |ms|
    ensures RenderAll(ms, icon).failure.None? ==> |RenderAll(ms, icon).outputs| == RenderCount(ms)
    decreases |ms|
  {
    if |ms| > 0 {
      RenderAllOutcome(ms[1..], icon);
      assert forall i :: 1 <= i < |ms| ==> ms[i] == ms[1..][i - 1];
    }
  }

  /** How many of the messages render. */
  function RenderCount(ms: seq<Message>): (n: nat)
    decreases |ms|
  {
    if |ms| == 0 then 0 else (if Renders(ms[0]) then 1 else 0) + RenderCount(ms[1..])
  }

  /** The app the notification comes from, if the id names one. */
  function AppOf(apps: Apps, appId: Option<string>): Option<App> {
    if appId.Some? then apps(appId.value) else None
  }

  /** The header is due when the app is known and running and the
      previous item shown did not come from it. */
  predicate HeaderDue(app: Option<App>, appId: Option<string>, lastApp: Option<string>) {
    app.Some? && app.value.isRunning && appId != lastApp
  }

  /** The text of a notification that fits on the header line: a non-empty
      string, alone or as the only element of an array. */
  function OneLine(messages: Messages): (r: Option<string>)
    ensures r.Some? ==> r.value != ""
    ensures r.Some? <==>
      (messages.Single? && messages.message.Text? && messages.message.text != "")
      || (messages.List? && |messages.messages| == 1 && messages.messages[0].Text?
          && messages.messages[0].text != "")
  {
    match messages
    case Single(Text(s)) => if s != "" then Some(s) else None
    case List(ms) => if |ms| == 1 && ms[0].Text? && ms[0].text != "" then Some(ms[0].text) else None
    case _ => None
  }

  function Header(name: string): string {
    "Notification from " + name
  }

  function RenderMessages(messages: Messages, icon: Option<string>): Emitted {
    match messages
    case Single(m) => RenderAll([m], icon)
    case List(ms) => RenderAll(ms, icon)
  }

  /** `showNotification`, given what the formatter produced. */
  function ShowNotification(apps: Apps, appId: Option<string>, icon: Option<string>,
                            messages: Messages, lastApp: Option<string>)
    : (r: Emitted)
    ensures var app := AppOf(apps, appId);
            HeaderDue(app, appId, lastApp) && OneLine(messages).Some? ==>
              r == Emitted([Reply(Some(Header(app.value.name) + ": " + OneLine(messages).value), icon)], None)
    ensures !HeaderDue(AppOf(apps, appId), appId, lastApp) ==> r == RenderMessages(messages, icon)
    ensures var app := AppOf(apps, appId);
            HeaderDue(app, appId, lastApp) && OneLine(messages).None? ==>
              && r.failure == RenderMessages(messages, icon).failure
              && r.outputs == [Reply(Some(Header(app.value.name)), icon)] + RenderMessages(messages, icon).outputs
  {
    var app := AppOf(apps, appId);
    var due := HeaderDue(app, appId, lastApp);
    var line := OneLine(messages);
    if due && line.Some? then
      Emitted([Reply(Some(Header(app.value.name) + ": " + line.value), icon)], None)
    else
      var head := if due then [Reply(Some(Header(app.value.name)), icon)] else [];
      var body := RenderMessages(messages, icon);
      Emitted(head + body.outputs, body.failure)
  }

  /** A thrown value as the error item carries it: a string or an error
      object, or a `null`/`undefined` that was thrown. */
  datatype ErrorPayload = Thrown(error: JsError) | Nullish

  /** The text an error is reported with: a string as it is, a syntax error
      with its file, line and message, otherwise its message if non-empty,
      otherwise its string conversion. */
  function ErrorMessage(e: JsError): (m: string)
    ensures e.ErrorObject? && e.name == "SyntaxError" ==>
              && "Syntax error at " + e.fileName + " line " <= m
              && |e.message| <= |m| && m[|m| - |e.message|..] == e.message
    ensures e.ErrorObject? && e.name != "SyntaxError" && e.message != "" ==> m == e.message
  {
    match e
    case StringError(s) => s
    case ErrorObject(name, _, message, fileName, lineNumber, rendered) =>
      if name == "SyntaxError" then
        "Syntax error at " + fileName + " line " + IntToString(lineNumber) + ": " + message
      else if message != "" then message
      else rendered
  }

  /** Reading `name` of a `null` or `undefined` error. */
  const NullError: JsError := TypeError("Cannot read property 'name' of null")

  /** `showError`: exactly one reply, naming the app when it is known and
      running. */
  function ShowError(apps: Apps, appId: Option<string>, icon: Option<string>, error: ErrorPayload)
    : (r: Result<Output>)
    ensures r.Failure? <==> error.Nullish?
    ensures r.Failure? ==> r.error == NullError
    ensures r.Success? ==> r.value.Reply? && r.value.icon == icon && r.value.text.Some?
    ensures r.Success? ==>
      var app := AppOf(apps, appId);
      var msg := ErrorMessage(error.error);
      r.value.text.value ==
        if app.Some? && app.value.isRunning then app.value.name + " had an error: " + msg + "."
        else "Sorry, that did not work: " + msg + "."
  {
    match error
    case Nullish => Failure(NullError)
    case Thrown(e) =>
      var app := AppOf(apps, appId);
      var msg := ErrorMessage(e);
      if app.Some? && app.value.isRunning then
        Success(Reply(Some(app.value.name + " had an error: " + msg + "."), icon))
      else
        Success(Reply(Some("Sorry, that did not work: " + msg + "."), icon))
  }

  /** A string error is reported verbatim, and so is a non-empty message
      of an error that is not a syntax error. */
  lemma ErrorMessageCases(e: JsError)
    ensures e.StringError? ==> ErrorMessage(e) == e.text
    ensures e.ErrorObject? && e.name != "SyntaxError" && e.message != "" ==> ErrorMessage(e) == e.message
    ensures e.ErrorObject? && e.name != "SyntaxError" && e.message == "" ==> ErrorMessage(e) == e.rendered
  {
  }
}
