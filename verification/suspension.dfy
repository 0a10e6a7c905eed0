/** The suspension primitive (`dlg.ask`, `dlg.expect`, `dlg.askChoices` and
    slot filling) with the user's side replaced by a scripted list of
    responses. A prompt takes the first response that qualifies for it;
    responses of another category are passed over (the dialog keeps waiting),
    an explicit cancellation raises the ECANCELLED failure, and a script that
    runs out leaves the handler suspended. */
module Suspension {
  import opened Js
  import opened ThingTalk

  /** The intents that the permission-response category admits. */
  datatype PermissionAnswer =
    | Yes
    | No
    | Maybe
    | Back
    | RuleAnswer(rule: PermissionRule)
    | FilterAnswer(filter: Filter)
    | PredicateAnswer(condition: BoolExpr)

  /** One user response, as the dialog layer hands it over. */
  datatype Response =
    | ChoiceReply(index: int)
    | PermissionReply(answer: PermissionAnswer)
    | ValueReply(value: Value)
    | YesNoReply(yes: bool)
    | CancelReply
    | UnrelatedReply

  /** The outcome of one suspension. */
  datatype Awaited<T> = Got(value: T, rest: seq<Response>) | Cancel(rest: seq<Response>) | Starved

  /** A response the prompt passes over while it keeps waiting. */
  predicate PassedOver<T>(resp: Response, accept: Response -> Option<T>) {
    resp != CancelReply && accept(resp).None?
  }

  /** Wait for the first response that `accept` admits, or a cancellation. */
  function Await<T>(script: seq<Response>, accept: Response -> Option<T>): (r: Awaited<T>)
    ensures !r.Starved? ==> |r.rest| < |script| && r.rest == script[|script| - |r.rest|..]
    ensures !r.Starved? ==>
      forall j :: 0 <= j < |script| - |r.rest| - 1 ==> PassedOver(script[j], accept)
    ensures r.Got? ==> script[|script| - |r.rest| - 1] != CancelReply
                       && accept(script[|script| - |r.rest| - 1]) == Some(r.value)
    ensures r.Cancel? ==> script[|script| - |r.rest| - 1] == CancelReply
    ensures r.Starved? <==> forall j :: 0 <= j < |script| ==> PassedOver(script[j], accept)
    decreases |script|
  {
    if |script| == 0 then Starved
    else if script[0] == CancelReply then Cancel(script[1..])
    else match accept(script[0])
      case Some(v) => Got(v, script[1..])
      case None =>
        var r := Await(script[1..], accept);
        assert forall j :: 1 <= j < |script| ==> script[j] == script[1..][j - 1];
        assert !r.Starved? ==> script[1..][|script| - 1 - |r.rest|..] == script[|script| - |r.rest|..];
        r
  }

  /** How a dialog that suspends ends: it returns a value, throws, or is
      still waiting when the script runs out. Each carries the events it
      produced on the way and, unless still waiting, the responses left. */
  datatype Flow<+T, +E> =
    | Finished(value: T, rest: seq<Response>, trace: seq<E>)
    | Raised(error: JsError, rest: seq<Response>, trace: seq<E>)
    | Suspended(trace: seq<E>)

  /** The same outcome with `events` produced before it. */
  function Prefix<T, E>(events: seq<E>, f: Flow<T, E>): (r: Flow<T, E>)
    ensures r.Finished? == f.Finished? && r.Raised? == f.Raised? && r.Suspended? == f.Suspended?
    ensures r.trace == events + f.trace
    ensures f.Finished? ==> r.value == f.value && r.rest == f.rest
    ensures f.Raised? ==> r.error == f.error && r.rest == f.rest
  {
    match f
    case Finished(v, rest, tr) => Finished(v, rest, events + tr)
    case Raised(e, rest, tr) => Raised(e, rest, events + tr)
    case Suspended(tr) => Suspended(events + tr)
  }

  /** The dialog returned `value` and left `rest` of the script. */
  predicate Returns<T(==), E>(f: Flow<T, E>, value: T, rest: seq<Response>) {
    f.Finished? && f.value == value && f.rest == rest
  }

  /** Two dialogs end alike: both return, with the same value and the
      same responses left, or neither does. */
  predicate SameEnd<T(==), E>(a: Flow<T, E>, b: Flow<T, E>) {
    a.Finished? == b.Finished? && (a.Finished? ==> a.value == b.value && a.rest == b.rest)
  }

  /** The trace ends with `e`. */
  predicate LastEvent<E(==)>(trace: seq<E>, e: E) {
    |trace| >= 1 && trace[|trace| - 1] == e
  }

  /** Events produced before a flow do not change how its trace ends. */
  lemma PrefixLastEvent<T, E>(events: seq<E>, f: Flow<T, E>, e: E)
    requires LastEvent(f.trace, e)
    ensures LastEvent(Prefix(events, f).trace, e)
  {
    var t := Prefix(events, f).trace;
    assert t[|t| - 1] == f.trace[|f.trace| - 1];
  }

  /** Every response left over after a wait was in the script. */
  lemma RestInScript(script: seq<Response>, rest: seq<Response>)
    requires |rest| <= |script| && rest == script[|script| - |rest|..]
    ensures forall x :: x in rest ==> x in script
  {
    forall x | x in rest ensures x in script {
      var k :| 0 <= k < |rest| && rest[k] == x;
      assert script[|script| - |rest| + k] == rest[k];
    }
  }

  /** What is left after two waits in a row is what is left of the script. */
  lemma SuffixOfSuffix(script: seq<Response>, mid: seq<Response>, rest: seq<Response>)
    requires |mid| <= |script| && mid == script[|script| - |mid|..]
    requires |rest| <= |mid| && rest == mid[|mid| - |rest|..]
    ensures rest == script[|script| - |rest|..]
  {
  }

  /** A flow that ran on what a wait left of the script leaves, when it
      stops, a proper suffix of the whole script. */
  lemma ResumedSuffix<T, E>(script: seq<Response>, rest: seq<Response>, f: Flow<T, E>)
    requires |rest| < |script| && rest == script[|script| - |rest|..]
    requires !f.Suspended? ==> |f.rest| <= |rest| && f.rest == rest[|rest| - |f.rest|..]
    ensures !f.Suspended? ==> |f.rest| < |script| && f.rest == script[|script| - |f.rest|..]
  {
    if !f.Suspended? {
      SuffixOfSuffix(script, rest, f.rest);
    }
  }

  /** `askChoices` over `n` options: an index among them. */
  function AsChoice(n: nat): Response -> Option<nat> {
    (resp: Response) =>
      if resp.ChoiceReply? && 0 <= resp.index < n then Some(resp.index as nat) else None
  }

  /** `expect(ValueCategory.PermissionResponse)`. */
  function AsPermissionAnswer(resp: Response): Option<PermissionAnswer> {
    if resp.PermissionReply? then Some(resp.answer) else None
  }

  /** Slot filling: a concrete value for the asked-for parameter. */
  function AsValue(resp: Response): Option<Value> {
    if resp.ValueReply? then Some(resp.value) else None
  }

  /** `ask(ValueCategory.YesNo, ...)`. */
  function AsYesNo(resp: Response): Option<bool> {
    if resp.YesNoReply? then Some(resp.yes) else None
  }
}
