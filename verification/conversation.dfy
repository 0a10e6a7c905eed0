/** The default dialog: the conversation loop that takes one queued item
    at a time (user input, notifications, errors, questions from apps,
    permission requests, configuration and program runs), runs the dialog
    the item calls for, settles the item's future and keeps going whatever
    the dialog did. The dialogs it starts are collaborators: the loop sees
    what they reply and whether they return or throw. */
module Conversation {
  import opened Js
  import opened ThingTalk
  import opened Notifications

  /** What the parser made of a user's utterance. `Other` covers every
      intent this dialog does not handle itself (answers, Back, ...). */
  datatype Intent =
    | Failed
    | Fallback
    | Train
    | YesIntent
    | NoIntent
    | ProgramIntent(program: Program)
    | PrimitiveIntent(program: Program)
    | Help
    | Make
    | Setup
    | PermissionRuleIntent
    | Other(name: string)

  /** A dialog the loop starts, with the arguments that select it. */
  datatype DialogCall =
    | FallbackDialog(intent: Intent)
    | RuleDialog(intent: Intent, fromRunProgram: bool, uniqueId: Option<string>)
    | HelpDialog(intent: Intent)
    | MakeDialog(intent: Intent)
    | SetupDialog(intent: Intent)
    | PermissionRuleDialog(intent: Intent)
    | FailDialog
    | AskAnything(appId: Option<string>, icon: Option<string>, valueType: string, question: string)
    | PermissionGrantDialog(program: Program, principal: string, identity: string)
    | ConfigDialog(kind: string)
    | DiscoveryDialog

  /** How `handleUserInput` answers an intent: a canned reply, or a dialog;
      `stat` and `dialogStat` name the usage statistic it bumps first. */
  datatype Route =
    | Canned(text: string, stat: string)
    | Dialog(call: DialogCall, dialogStat: Option<string>)

  /** `handleUserInput`: exactly one branch per intent. */
  function HandleUserInput(intent: Intent): (r: Route)
    ensures (intent.Failed? || intent.Fallback? || intent.Train?) <==> r == Dialog(FallbackDialog(intent), None)
    ensures intent.YesIntent? <==> r == Canned("I agree, but to what?", "sabrina-command-egg")
    ensures intent.NoIntent? <==> r == Canned("No way!", "sabrina-command-egg")
    ensures (intent.ProgramIntent? || intent.PrimitiveIntent?) <==>
      r == Dialog(RuleDialog(intent, false, None), Some("sabrina-command-rule"))
    ensures intent.Help? <==> r == Dialog(HelpDialog(intent), Some("sabrina-command-help"))
    ensures intent.Make? <==> r == Dialog(MakeDialog(intent), Some("sabrina-command-make"))
    ensures intent.Setup? <==> r == Dialog(SetupDialog(intent), Some("sabrina-command-setup"))
    ensures intent.PermissionRuleIntent? <==>
      r == Dialog(PermissionRuleDialog(intent), Some("sabrina-command-permissionrule"))
    ensures intent.Other? <==> r == Dialog(FailDialog, None)
  {
    match intent
    case Failed => Dialog(FallbackDialog(intent), None)
    case Fallback => Dialog(FallbackDialog(intent), None)
    case Train => Dialog(FallbackDialog(intent), None)
    case YesIntent => Canned("I agree, but to what?", "sabrina-command-egg")
    case NoIntent => Canned("No way!", "sabrina-command-egg")
    case ProgramIntent(_) => Dialog(RuleDialog(intent, false, None), Some("sabrina-command-rule"))
    case PrimitiveIntent(_) => Dialog(RuleDialog(intent, false, None), Some("sabrina-command-rule"))
    case Help => Dialog(HelpDialog(intent), Some("sabrina-command-help"))
    case Make => Dialog(MakeDialog(intent), Some("sabrina-command-make"))
    case Setup => Dialog(SetupDialog(intent), Some("sabrina-command-setup"))
    case PermissionRuleIntent => Dialog(PermissionRuleDialog(intent), Some("sabrina-command-permissionrule"))
    case Other(_) => Dialog(FailDialog, None)
  }

  /** What `formatError` returns: a string, or the thrown value itself. */
  datatype Formatted = AsText(text: string) | Itself(error: JsError)

  /** `formatError`: a syntax error gets its line and message, a string is
      kept, an error with a message is replaced by it, and anything else is
      returned unchanged. */
  function FormatError(e: JsError): (r: Formatted)
    ensures e.ErrorObject? && e.name == "SyntaxError" ==>
      r == AsText("Syntax error at line " + IntToString(e.lineNumber) + ": " + e.message)
    ensures e.StringError? ==> r == AsText(e.text)
    ensures e.ErrorObject? && e.name != "SyntaxError" ==>
      r == if e.message != "" then AsText(e.message) else Itself(e)
  {
    match e
    case StringError(s) => AsText(s)
    case ErrorObject(name, _, message, _, lineNumber, rendered) =>
      if name == "SyntaxError" then AsText("Syntax error at line " + IntToString(lineNumber) + ": " + message)
      else if message != "" then AsText(message)
      else Itself(e)
  }

  /** The `%s` rendering of what `formatError` returned. */
  function FormattedText(f: Formatted): string {
    match f
    case AsText(s) => s
    case Itself(e) => ErrorMessage(e)
  }

  /** The apology and the notification layer describe a failure with the
      same words, except for syntax errors, where only the notification
      names the file. */
  lemma FormatAgreesWithErrorMessage(e: JsError)
    ensures e.StringError? ==> FormattedText(FormatError(e)) == ErrorMessage(e)
    ensures e.ErrorObject? && e.name != "SyntaxError" ==> FormattedText(FormatError(e)) == ErrorMessage(e)
    ensures e.ErrorObject? && e.name == "SyntaxError" ==>
      ErrorMessage(e) == "Syntax error at " + e.fileName + " line " + IntToString(e.lineNumber)
                          + ": " + e.message
      && FormattedText(FormatError(e)) == "Syntax error at line " + IntToString(e.lineNumber)
                                            + ": " + e.message
  {
  }

  /** One item of the dialog queue. A notification carries what the
      formatter made of its output. */
  datatype QueueItem =
    | UserInput(intent: Intent)
    | Notification(appId: Option<string>, icon: Option<string>, messages: Messages)
    | ErrorReport(appId: Option<string>, icon: Option<string>, error: ErrorPayload)
    | Question(appId: Option<string>, icon: Option<string>, valueType: string, question: string)
    | PermissionRequest(program: Program, principal: string, identity: string)
    | InteractiveConfigure(kind: Option<string>)
    | RunProgram(program: Program, uniqueId: string)

  /** What a dialog returns to the item's future. */
  datatype ItemValue = NoValue | BoolValue(b: bool) | OpaqueValue(text: string)

  /** How a dialog ended, with what it said on the way. */
  datatype DialogRun = DialogRun(said: seq<Output>, ended: Result<ItemValue>)

  /** The collaborators: the dialogs the loop starts and the app database. */
  datatype Env = Env(dialogs: DialogCall -> DialogRun, apps: Apps)

  /** What the loop sends to the user. */
  datatype LoopOutput = Said(output: Output) | Apology(text: string)

  /** How an item's future was settled. */
  datatype Settlement = Resolved(value: ItemValue) | Rejected(error: JsError)

  /** The loop's state: `lastApp`, everything said so far, the settlement
      of every item taken so far (in order) and the failures logged. */
  datatype LoopState = LoopState(lastApp: Option<string>, outputs: seq<LoopOutput>,
                                 settled: seq<Settlement>, logged: seq<JsError>)

  /** What handling one item did, before its future is settled. */
  datatype Handled = Handled(said: seq<LoopOutput>, ended: Result<ItemValue>, lastApp: Option<string>)

  function SaidAll(outs: seq<Output>): (r: seq<LoopOutput>)
    ensures |r| == |outs|
    ensures forall i :: 0 <= i < |outs| ==> r[i] == Said(outs[i])
  {
    seq(|outs|, i requires 0 <= i < |outs| => Said(outs[i]))
  }

  function RunDialog(call: DialogCall, env: Env, lastApp: Option<string>): Handled {
    var run := env.dialogs(call);
    Handled(SaidAll(run.said), run.ended, lastApp)
  }

  const ApologyPrefix: string := "Sorry, I had an error processing your command: "

  /** User input: the routed dialog or canned reply; a failure other than
      a cancellation is apologised for before it is passed on. Handling
      user input returns nothing, so whatever the dialog returned is
      dropped and a success carries no value. */
  function HandleInput(intent: Intent, env: Env): (h: Handled)
    ensures h.lastApp.None?
    ensures h.ended.Success? ==> h.ended.value == NoValue
    ensures HandleUserInput(intent).Canned? ==> h.ended.Success?
    ensures HandleUserInput(intent).Dialog? ==>
      var run := env.dialogs(HandleUserInput(intent).call);
      (h.ended.Failure? <==> run.ended.Failure?) && (run.ended.Failure? ==> h.ended == run.ended)
  {
    match HandleUserInput(intent)
    case Canned(text, _) => Handled([Said(Reply(Some(text), None))], Success(NoValue), None)
    case Dialog(call, _) =>
      var run := env.dialogs(call);
      var apology := if run.ended.Failure? && !IsCancelled(run.ended.error)
                     then [Apology(ApologyPrefix + FormattedText(FormatError(run.ended.error)))]
                     else [];
      Handled(SaidAll(run.said) + apology, if run.ended.Success? then Success(NoValue) else run.ended, None)
  }

  /** One item, from dequeuing to just before its future is settled.
      `lastApp` becomes the item's app after a notification or an error is
      shown (not when showing it failed), and is forgotten by every other
      kind of item. */
  function Handle(item: QueueItem, lastApp: Option<string>, env: Env): (h: Handled)
    ensures (item.Notification? || item.ErrorReport?) && h.ended.Success? ==> h.lastApp == item.appId
    ensures (item.Notification? || item.ErrorReport?) && h.ended.Failure? ==> h.lastApp == lastApp
    ensures !(item.Notification? || item.ErrorReport?) ==> h.lastApp.None?
  {
    match item
    case UserInput(intent) => HandleInput(intent, env)
    case Notification(appId, icon, messages) =>
      var shown := ShowNotification(env.apps, appId, icon, messages, lastApp);
      if shown.failure.Some? then Handled(SaidAll(shown.outputs), Failure(shown.failure.value), lastApp)
      else Handled(SaidAll(shown.outputs), Success(NoValue), appId)
    case ErrorReport(appId, icon, error) =>
      (match ShowError(env.apps, appId, icon, error)
       case Failure(e) => Handled([], Failure(e), lastApp)
       case Success(out) => Handled([Said(out)], Success(NoValue), appId))
    case Question(appId, icon, valueType, question) =>
      RunDialog(AskAnything(appId, icon, valueType, question), env, None)
    case PermissionRequest(program, principal, identity) =>
      RunDialog(PermissionGrantDialog(program, principal, identity), env, None)
    case InteractiveConfigure(kind) =>
      if kind.Some? then RunDialog(ConfigDialog(kind.value), env, None)
      else RunDialog(DiscoveryDialog, env, None)
    case RunProgram(program, uniqueId) =>
      RunDialog(RuleDialog(ProgramIntent(program), true, Some(uniqueId)), env, None)
  }

  /** The settlement a handled item gets: the value it returned, or the
      failure it threw. */
  function SettlementOf(h: Handled): (st: Settlement)
    ensures st.Resolved? <==> h.ended.Success?
    ensures h.ended.Success? ==> st.value == h.ended.value
    ensures h.ended.Failure? ==> st.error == h.ended.error
  {
    if h.ended.Success? then Resolved(h.ended.value) else Rejected(h.ended.error)
  }

  /** One iteration of the loop: handle the item, settle its future once,
      and log a failure that is not a cancellation; the loop goes on in
      every case. */
  function Step(s: LoopState, item: QueueItem, env: Env): (r: LoopState)
    ensures var h := Handle(item, s.lastApp, env);
            && r.settled == s.settled + [SettlementOf(h)]
            && r.outputs == s.outputs + h.said
            && r.lastApp == h.lastApp
    ensures var st := SettlementOf(Handle(item, s.lastApp, env));
            r.logged == if st.Rejected? && !IsCancelled(st.error) then s.logged + [st.error] else s.logged
  {
    var h := Handle(item, s.lastApp, env);
    var outputs := s.outputs + h.said;
    match h.ended
    case Success(v) => LoopState(h.lastApp, outputs, s.settled + [Resolved(v)], s.logged)
    case Failure(e) =>
      LoopState(h.lastApp, outputs, s.settled + [Rejected(e)],
                if IsCancelled(e) then s.logged else s.logged + [e])
  }

  /** The loop over a queue of items: no failure ends it. */
  function Run(s: LoopState, items: seq<QueueItem>, env: Env): (r: LoopState)
    ensures |s.logged| <= |r.logged| <= |s.logged| + |items|
    decreases |items|
  {
    if |items| == 0 then s else Run(Step(s, items[0], env), items[1..], env)
  }

  /** Running two queues one after the other is running them joined. */
  lemma {:induction false} RunAppend(s: LoopState, a: seq<QueueItem>, b: seq<QueueItem>, env: Env)
    ensures Run(s, a + b, env) == Run(Run(s, a, env), b, env)
    decreases |a|
  {
    if |a| == 0 {
      assert a + b == b;
    } else {
      assert (a + b)[0] == a[0];
      assert (a + b)[1..] == a[1..] + b;
      RunAppend(Step(s, a[0], env), a[1..], b, env);
    }
  }

  /** The log only grows, and the loop never logs a cancellation. */
  lemma {:induction false} RunLogsNoCancellation(s: LoopState, items: seq<QueueItem>, env: Env)
    ensures forall i :: 0 <= i < |s.logged| ==> Run(s, items, env).logged[i] == s.logged[i]
    ensures forall i :: |s.logged| <= i < |Run(s, items, env).logged| ==> !IsCancelled(Run(s, items, env).logged[i])
    decreases |items|
  {
    if |items| > 0 {
      RunLogsNoCancellation(Step(s, items[0], env), items[1..], env);
    }
  }

  /** The loop only ever adds: one settlement per item, and what was said
      or settled before stays as it was. */
  lemma {:induction false} RunExtends(s: LoopState, items: seq<QueueItem>, env: Env)
    ensures |Run(s, items, env).settled| == |s.settled| + |items|
    ensures Run(s, items, env).settled[..|s.settled|] == s.settled
    ensures |s.outputs| <= |Run(s, items, env).outputs|
    ensures Run(s, items, env).outputs[..|s.outputs|] == s.outputs
    decreases |items|
  {
    if |items| > 0 {
      var s1 := Step(s, items[0], env);
      RunExtends(s1, items[1..], env);
      var r := Run(s1, items[1..], env);
      assert r.settled[..|s.settled|] == r.settled[..|s1.settled|][..|s.settled|];
      assert r.outputs[..|s.outputs|] == r.outputs[..|s1.outputs|][..|s.outputs|];
    }
  }

  /** Every item's future is settled exactly once, in queue order, with
      what handling it produced given the `lastApp` the items before it
      left, however many of them failed. */
  lemma RunSettlesEveryItem(s: LoopState, items: seq<QueueItem>, k: int, env: Env)
    requires 0 <= k < |items|
    ensures |Run(s, items, env).settled| == |s.settled| + |items|
    ensures Run(s, items, env).settled[|s.settled| + k]
         == SettlementOf(Handle(items[k], Run(s, items[..k], env).lastApp, env))
  {
    RunExtends(s, items, env);
    var before := Run(s, items[..k], env);
    RunExtends(s, items[..k], env);
    var mid := Step(before, items[k], env);
    assert items == items[..k] + ([items[k]] + items[k + 1..]);
    RunAppend(s, items[..k], [items[k]] + items[k + 1..], env);
    RunAppend(before, [items[k]], items[k + 1..], env);
    assert Run(before, [items[k]], env) == mid by {
      assert [items[k]][1..] == [];
    }
    RunExtends(mid, items[k + 1..], env);
    var r := Run(mid, items[k + 1..], env);
    assert r.settled[..|mid.settled|][|s.settled| + k] == mid.settled[|s.settled| + k];
  }

  // ---------------------------------------------------------------------
  // What particular items do
  // ---------------------------------------------------------------------

  /** The outputs one step added. */
  function NewOutputs(s: LoopState, item: QueueItem, env: Env): seq<LoopOutput> {
    Step(s, item, env).outputs[|s.outputs|..]
  }

  /** A user command whose dialog fails: everything the dialog said, then
      exactly one apology carrying `formatError`'s text unless the failure
      is a cancellation, and the future is rejected with that failure. */
  lemma FailedCommandApologisesOnce(s: LoopState, intent: Intent, env: Env)
    requires HandleUserInput(intent).Dialog?
    requires env.dialogs(HandleUserInput(intent).call).ended.Failure?
    ensures var e := env.dialogs(HandleUserInput(intent).call).ended.error;
            var out := NewOutputs(s, UserInput(intent), env);
            && Step(s, UserInput(intent), env).settled == s.settled + [Rejected(e)]
            && (IsCancelled(e) ==> forall i :: 0 <= i < |out| ==> out[i].Said?)
            && (!IsCancelled(e) ==>
                  && |out| >= 1
                  && (forall i :: 0 <= i < |out| - 1 ==> out[i].Said?)
                  && out[|out| - 1] == Apology(ApologyPrefix + FormattedText(FormatError(e))))
  {
    var h := Handle(UserInput(intent), s.lastApp, env);
    assert Step(s, UserInput(intent), env).outputs == s.outputs + h.said;
    assert NewOutputs(s, UserInput(intent), env) == h.said;
  }

  /** A canned reply or a dialog that returns: no apology, and the future
      is resolved with no value. */
  lemma SuccessfulCommandNoApology(s: LoopState, intent: Intent, env: Env)
    requires HandleUserInput(intent).Dialog? ==> env.dialogs(HandleUserInput(intent).call).ended.Success?
    ensures var out := NewOutputs(s, UserInput(intent), env);
            && (forall i :: 0 <= i < |out| ==> out[i].Said?)
            && Step(s, UserInput(intent), env).settled[|s.settled|] == Resolved(NoValue)
            && Step(s, UserInput(intent), env).logged == s.logged
  {
    var h := Handle(UserInput(intent), s.lastApp, env);
    assert NewOutputs(s, UserInput(intent), env) == h.said;
  }

  /** Two notifications in a row from the same running app, the first of
      them not a one-liner: the header is shown once, before the first. */
  lemma HeaderOncePerApp(s: LoopState, app: string, name: string,
                         icon1: Option<string>, m1: Messages,
                         icon2: Option<string>, m2: Messages, env: Env)
    requires env.apps(app) == Some(App(name, true))
    requires s.lastApp != Some(app)
    requires OneLine(m1).None? && RenderMessages(m1, icon1).failure.None?
    ensures var r := Run(s, [Notification(Some(app), icon1, m1), Notification(Some(app), icon2, m2)], env);
            r.outputs == s.outputs + [Said(Reply(Some(Header(name)), icon1))]
                         + SaidAll(RenderMessages(m1, icon1).outputs)
                         + SaidAll(RenderMessages(m2, icon2).outputs)
  {
    var n1 := Notification(Some(app), icon1, m1);
    var n2 := Notification(Some(app), icon2, m2);
    RunTwo(s, n1, n2, env);
    var s1 := Step(s, n1, env);
    var shown1 := ShowNotification(env.apps, Some(app), icon1, m1, s.lastApp);
    assert shown1.outputs == [Reply(Some(Header(name)), icon1)] + RenderMessages(m1, icon1).outputs;
    SaidAllAppend([Reply(Some(Header(name)), icon1)], RenderMessages(m1, icon1).outputs);
    assert s1.outputs == s.outputs + [Said(Reply(Some(Header(name)), icon1))]
                         + SaidAll(RenderMessages(m1, icon1).outputs);
    assert s1.lastApp == Some(app);
    assert !HeaderDue(AppOf(env.apps, Some(app)), Some(app), s1.lastApp);
  }

  /** Running a queue of two items is two steps. */
  lemma RunTwo(s: LoopState, a: QueueItem, b: QueueItem, env: Env)
    ensures Run(s, [a, b], env) == Step(Step(s, a, env), b, env)
  {
    var s1 := Step(s, a, env);
    var s2 := Step(s1, b, env);
    assert [a, b][0] == a && [a, b][1..] == [b];
    assert Run(s, [a, b], env) == Run(s1, [b], env);
    assert [b][0] == b && [b][1..] == [];
    assert Run(s1, [b], env) == Run(s2, [], env);
  }

  lemma SaidAllAppend(a: seq<Output>, b: seq<Output>)
    ensures SaidAll(a + b) == SaidAll(a) + SaidAll(b)
  {
  }

  /** The items that only start a dialog: which dialog each one starts; all
      of them forget `lastApp`. */
  lemma DialogItems(item: QueueItem, lastApp: Option<string>, env: Env)
    ensures item.Question? ==>
      Handle(item, lastApp, env) == RunDialog(AskAnything(item.appId, item.icon, item.valueType, item.question), env, None)
    ensures item.PermissionRequest? ==>
      Handle(item, lastApp, env) == RunDialog(PermissionGrantDialog(item.program, item.principal, item.identity), env, None)
    ensures item.InteractiveConfigure? && item.kind.Some? ==>
      Handle(item, lastApp, env) == RunDialog(ConfigDialog(item.kind.value), env, None)
    ensures item.InteractiveConfigure? && item.kind.None? ==>
      Handle(item, lastApp, env) == RunDialog(DiscoveryDialog, env, None)
    ensures item.RunProgram? ==>
      Handle(item, lastApp, env)
        == RunDialog(RuleDialog(ProgramIntent(item.program), true, Some(item.uniqueId)), env, None)
  {
  }
}
