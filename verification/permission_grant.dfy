/** `permissionGrant`: negotiating whether a program submitted by another
    principal may run. The user answers yes this time, always (from anybody
    or from this principal), no, or maybe; maybe opens the refinement loop
    on a copy of the rule with its filters emptied. A rule the user settles
    on is stored, and the answer is then whatever the permission store says
    about the program. */
module PermissionGrant {
  import opened Js
  import opened ThingTalk
  import opened Suspension
  import opened PermissionConversion
  import opened FilterRefinement

  /** What the dialog shows or does, in order. */
  datatype GrantEvent =
    | IconSet(icon: Option<string>)
    | Announced(contactName: Option<string>)
    | ButtonsShown(anybody: PermissionRule, specific: PermissionRule)
    | Refine(event: RefineEvent)
    | PermissionAdded(rule: PermissionRule)

  /** The permission store: the rules stored before the dialog, and
      `checkIsAllowed` for the program and principal at hand, as a function
      of the rules stored. */
  datatype Store = Store(stored: seq<PermissionRule>, allowedUnder: seq<PermissionRule> -> bool)

  /** The collaborators of the dialog: the contacts capability, the
      predicate simplifier, the value describer and the permission store. */
  datatype Collaborators = Collaborators(contacts: Contacts, optimize: Simplifier,
                                         describeArg: ValueDescriber, store: Store)

  /** The rules a trace stored, in order. */
  function Added(trace: seq<GrantEvent>): (rs: seq<PermissionRule>)
    decreases |trace|
  {
    if |trace| == 0 then []
    else (if trace[0].PermissionAdded? then [trace[0].rule] else []) + Added(trace[1..])
  }

  lemma {:induction false} AddedConcat(a: seq<GrantEvent>, b: seq<GrantEvent>)
    ensures Added(a + b) == Added(a) + Added(b)
    decreases |a|
  {
    if |a| > 0 {
      assert (a + b)[1..] == a[1..] + b;
      AddedConcat(a[1..], b);
    } else {
      assert a + b == b;
    }
  }

  lemma AddedSingle(e: GrantEvent)
    ensures Added([e]) == if e.PermissionAdded? then [e.rule] else []
  {
    assert [e][1..] == [];
  }

  /** Events that store nothing, shown before an outcome, change nothing
      about what it stores. */
  lemma AddedPrefix(events: seq<GrantEvent>, f: Flow<bool, GrantEvent>)
    requires Added(events) == []
    ensures Added(Prefix(events, f).trace) == Added(f.trace)
  {
    AddedConcat(events, f.trace);
    assert [] + Added(f.trace) == Added(f.trace);
  }

  /** The refinement dialog's events as events of this dialog. */
  function Lift(trace: seq<RefineEvent>): (r: seq<GrantEvent>)
    ensures |r| == |trace|
    ensures forall i :: 0 <= i < |trace| ==> r[i] == Refine(trace[i])
  {
    seq(|trace|, i requires 0 <= i < |trace| => Refine(trace[i]))
  }

  /** The refinement dialog stores nothing. */
  lemma {:induction false} LiftAddsNothing(trace: seq<RefineEvent>)
    ensures Added(Lift(trace)) == []
    decreases |trace|
  {
    if |trace| > 0 {
      assert Lift(trace)[1..] == Lift(trace[1..]);
      LiftAddsNothing(trace[1..]);
    }
  }

  /** "Always from anybody": the same rule for the `null` principal. */
  function AnybodyRule(rule: PermissionRule): (r: PermissionRule)
    ensures r.principal == Anybody
    ensures r.trigger == rule.trigger && r.query == rule.query && r.action == rule.action
  {
    rule.(principal := Anybody)
  }

  function Emptied(pf: PermissionFunction): PermissionFunction {
    if pf.Specified? then pf.(filter := True) else pf
  }

  /** The starting point of the refinement: the rule with every specified
      slot's filter reset to `true`. */
  function EmptiedRule(rule: PermissionRule): (r: PermissionRule)
    ensures SameShape(r, rule)
    ensures forall s :: SlotOf(r, s).Specified? ==> SlotOf(r, s).filter == True
  {
    var r := PermissionRule(rule.principal, Emptied(rule.trigger), Emptied(rule.query),
                            Emptied(rule.action));
    assert SlotOf(r, TriggerSlot) == r.trigger && SlotOf(r, QuerySlot) == r.query;
    assert SlotOf(r, ActionSlot) == r.action;
    r
  }

  /** `checkPermissionRule`: store the rule, then ask the store whether the
      program is now allowed. */
  function Settle(rule: PermissionRule, rest: seq<Response>, trace: seq<GrantEvent>, store: Store)
    : (r: Flow<bool, GrantEvent>)
    ensures r.Finished? && r.rest == rest && r.trace == trace + [PermissionAdded(rule)]
    ensures r.value == store.allowedUnder(store.stored + [rule])
  {
    Finished(store.allowedUnder(store.stored + [rule]), rest, trace + [PermissionAdded(rule)])
  }

  /** The question loop of `permissionGrant`, inside its try block: show the
      five buttons and wait for a permission response. `working` is the
      emptied rule, which the refinement edits in place, so a later Maybe
      resumes from the filters an abandoned refinement left on it. */
  function GrantLoop(anybody: PermissionRule, specific: PermissionRule, working: PermissionRule,
                     script: seq<Response>, c: Collaborators)
    : (r: Flow<bool, GrantEvent>)
    ensures !r.Suspended? ==> |r.rest| < |script|
    decreases |script|, 2
  {
    var shown := [ButtonsShown(anybody, specific)];
    match Await(script, AsPermissionAnswer)
    case Starved => Suspended(shown)
    case Cancel(rest) => Finished(false, rest, shown)
    case Got(answer, rest) => GrantAnswer(anybody, specific, working, answer, rest, shown, c)
  }

  /** What the loop does with the permission response it got. */
  function GrantAnswer(anybody: PermissionRule, specific: PermissionRule, working: PermissionRule,
                       answer: PermissionAnswer, rest: seq<Response>, shown: seq<GrantEvent>,
                       c: Collaborators)
    : (r: Flow<bool, GrantEvent>)
    ensures !r.Suspended? ==> |r.rest| <= |rest|
    decreases |rest|, 1
  {
    if answer.Yes? then Finished(true, rest, shown)
    else if answer.RuleAnswer? then Settle(answer.rule, rest, shown, c.store)
    else if answer.Maybe? then MaybeRound(anybody, specific, working, rest, shown, c)
    else Finished(false, rest, shown)
  }

  /** After Maybe: refine the working rule; a refined rule is settled, a
      `null` goes back to the five buttons, a cancellation is `false`. */
  function MaybeRound(anybody: PermissionRule, specific: PermissionRule, working: PermissionRule,
                      script: seq<Response>, shown: seq<GrantEvent>, c: Collaborators)
    : (r: Flow<bool, GrantEvent>)
    ensures !r.Suspended? ==> |r.rest| <= |script|
    decreases |script|, 0
  {
    var f := AddFilter(working, script, c.optimize, c.describeArg);
    var events := shown + Lift(f.trace);
    match f
    case Suspended(_) => Suspended(events)
    case Raised(e, rest, _) =>
      if IsCancelled(e) then Finished(false, rest, events) else Raised(e, rest, events)
    case Finished(Refined(result, next), rest, _) =>
      if result.Some? then Settle(result.value, rest, events, c.store)
      else Prefix(events, GrantLoop(anybody, specific, next, rest, c))
  }

  /** `permissionGrant` as written. The display name and the icon come
      first; the conversion and both copies of the rule happen before the
      try block, so a program the conversion rejects (`null`) fails on the
      copy and the failure escapes, cancellation or not. */
  function PermissionGrant(program: Program, principal: string, identity: string,
                           script: seq<Response>, c: Collaborators)
    : (r: Flow<bool, GrantEvent>)
    ensures |r.trace| >= 1 && r.trace[0] == IconSet(ComputeIcon(program))
    ensures !r.Suspended? ==> |r.rest| <= |script|
  {
    var contactName := IdentityName(c.contacts, identity);
    var icon := [IconSet(ComputeIcon(program))];
    match ConvertToPermissionRule(principal, contactName, program, c.optimize)
    case Failure(e) => Raised(e, script, icon)
    case Success(None) => Raised(NullCopy, script, icon)
    case Success(Some(rule)) =>
      Prefix(icon + [Announced(contactName)],
             GrantLoop(AnybodyRule(rule), rule, EmptiedRule(rule), script, c))
  }

  /** `permissionRule.clone()` on `null`. */
  const NullCopy: JsError := TypeError("Cannot read property 'clone' of null")

  // ---------------------------------------------------------------------
  // Properties of the loop
  // ---------------------------------------------------------------------

  /** Whatever happens, at most one rule is stored, the dialog's answer is
      the store's verdict once one is, and a cancellation never escapes. */
  predicate WellSettled(r: Flow<bool, GrantEvent>, store: Store) {
    && |Added(r.trace)| <= 1
    && (r.Finished? && |Added(r.trace)| == 1 ==> r.value == store.allowedUnder(store.stored + Added(r.trace)))
    && (r.Raised? ==> !IsCancelled(r.error))
  }

  /** Settling after events that stored nothing stores exactly the rule. */
  lemma SettleStoresOne(rule: PermissionRule, rest: seq<Response>, trace: seq<GrantEvent>, store: Store)
    requires Added(trace) == []
    ensures Added(Settle(rule, rest, trace, store).trace) == [rule]
    ensures WellSettled(Settle(rule, rest, trace, store), store)
  {
    AddedConcat(trace, [PermissionAdded(rule)]);
    AddedSingle(PermissionAdded(rule));
  }

  lemma {:induction false} GrantLoopSettles(anybody: PermissionRule, specific: PermissionRule,
                                            working: PermissionRule, script: seq<Response>,
                                            c: Collaborators)
    ensures WellSettled(GrantLoop(anybody, specific, working, script, c), c.store)
    decreases |script|, 2
  {
    var shown := [ButtonsShown(anybody, specific)];
    AddedSingle(ButtonsShown(anybody, specific));
    match Await(script, AsPermissionAnswer)
    case Starved =>
    case Cancel(rest) =>
    case Got(answer, rest) =>
      GrantAnswerSettles(anybody, specific, working, answer, rest, shown, c);
  }

  lemma {:induction false} GrantAnswerSettles(anybody: PermissionRule, specific: PermissionRule,
                                              working: PermissionRule, answer: PermissionAnswer,
                                              rest: seq<Response>, shown: seq<GrantEvent>,
                                              c: Collaborators)
    requires Added(shown) == []
    ensures WellSettled(GrantAnswer(anybody, specific, working, answer, rest, shown, c), c.store)
    decreases |rest|, 1
  {
    if answer.RuleAnswer? {
      SettleStoresOne(answer.rule, rest, shown, c.store);
    } else if answer.Maybe? {
      MaybeRoundSettles(anybody, specific, working, rest, shown, c);
    }
  }

  lemma {:induction false} MaybeRoundSettles(anybody: PermissionRule, specific: PermissionRule,
                                             working: PermissionRule, script: seq<Response>,
                                             shown: seq<GrantEvent>, c: Collaborators)
    requires Added(shown) == []
    ensures WellSettled(MaybeRound(anybody, specific, working, script, shown, c), c.store)
    decreases |script|, 0
  {
    var f := AddFilter(working, script, c.optimize, c.describeArg);
    var events := shown + Lift(f.trace);
    LiftAddsNothing(f.trace);
    AddedConcat(shown, Lift(f.trace));
    match f
    case Suspended(_) =>
    case Raised(e, rest, _) =>
    case Finished(Refined(result, next), rest, _) =>
      if result.Some? {
        SettleStoresOne(result.value, rest, events, c.store);
      } else {
        GrantLoopSettles(anybody, specific, next, rest, c);
        var g := GrantLoop(anybody, specific, next, rest, c);
        AddedPrefix(events, g);
      }
  }

  /** A cancellation anywhere in the refinement opened by Maybe is caught:
      the dialog answers `false`, goes on from what the refinement left of
      the script, and stores nothing. */
  lemma CancelledRefinementRefuses(anybody: PermissionRule, specific: PermissionRule,
                                   working: PermissionRule, script: seq<Response>,
                                   shown: seq<GrantEvent>, c: Collaborators)
    requires Added(shown) == []
    requires AddFilter(working, script, c.optimize, c.describeArg).Raised?
    requires IsCancelled(AddFilter(working, script, c.optimize, c.describeArg).error)
    ensures var r := MaybeRound(anybody, specific, working, script, shown, c);
            && r.Finished? && !r.value
            && r.rest == AddFilter(working, script, c.optimize, c.describeArg).rest
            && Added(r.trace) == []
  {
    var f := AddFilter(working, script, c.optimize, c.describeArg);
    LiftAddsNothing(f.trace);
    AddedConcat(shown, Lift(f.trace));
  }

  /** Maybe and then a cancellation at the refinement menu is a refusal. */
  lemma MaybeThenCancelRefuses(anybody: PermissionRule, specific: PermissionRule,
                               working: PermissionRule, tail: seq<Response>, c: Collaborators)
    ensures var r := GrantLoop(anybody, specific, working, [PermissionReply(Maybe)] + ([CancelReply] + tail), c);
            r.Finished? && !r.value && r.rest == tail && Added(r.trace) == []
  {
    var script := [CancelReply] + tail;
    assert script[1..] == tail;
    assert AddFilter(working, script, c.optimize, c.describeArg).Raised?
        && AddFilter(working, script, c.optimize, c.describeArg).error == Cancelled
        && AddFilter(working, script, c.optimize, c.describeArg).rest == tail;
    MaybeOpensRefinement(anybody, specific, working, script, c);
    AddedSingle(ButtonsShown(anybody, specific));
    CancelledRefinementRefuses(anybody, specific, working, script, [ButtonsShown(anybody, specific)], c);
  }

  /** The whole dialog stores at most one rule and answers with the store's
      verdict when it does; a cancellation while it waits is a refusal. */
  lemma PermissionGrantSettles(program: Program, principal: string, identity: string,
                               script: seq<Response>, c: Collaborators)
    ensures WellSettled(PermissionGrant(program, principal, identity, script, c), c.store)
  {
    var contactName := IdentityName(c.contacts, identity);
    AddedSingle(IconSet(ComputeIcon(program)));
    AddedSingle(Announced(contactName));
    AddedConcat([IconSet(ComputeIcon(program))], [Announced(contactName)]);
    var conv := ConvertToPermissionRule(principal, contactName, program, c.optimize);
    if conv.Success? && conv.value.Some? {
      var rule := conv.value.value;
      var g := GrantLoop(AnybodyRule(rule), rule, EmptiedRule(rule), script, c);
      GrantLoopSettles(AnybodyRule(rule), rule, EmptiedRule(rule), script, c);
      AddedPrefix([IconSet(ComputeIcon(program))] + [Announced(contactName)], g);
      assert PermissionGrant(program, principal, identity, script, c)
          == Prefix([IconSet(ComputeIcon(program))] + [Announced(contactName)], g);
    }
  }

  // ---------------------------------------------------------------------
  // What particular answers do
  // ---------------------------------------------------------------------

  /** The answers that end the dialog with `false`: No, and anything else
      the permission category admits that the loop does not handle. */
  predicate Declines(answer: PermissionAnswer) {
    answer.No? || answer.Back? || answer.FilterAnswer? || answer.PredicateAnswer?
  }

  /** Yes this time allows the program once and stores nothing; declining
      refuses it and stores nothing. */
  lemma YesAndNo(anybody: PermissionRule, specific: PermissionRule, working: PermissionRule,
                 answer: PermissionAnswer, tail: seq<Response>, c: Collaborators)
    requires answer.Yes? || Declines(answer)
    ensures var r := GrantLoop(anybody, specific, working, [PermissionReply(answer)] + tail, c);
            r == Finished(answer.Yes?, tail, [ButtonsShown(anybody, specific)])
  {
    var script := [PermissionReply(answer)] + tail;
    assert script[1..] == tail;
  }

  /** Cancelling while the buttons wait is a refusal. */
  lemma CancelRefuses(anybody: PermissionRule, specific: PermissionRule, working: PermissionRule,
                      tail: seq<Response>, c: Collaborators)
    ensures var r := GrantLoop(anybody, specific, working, [CancelReply] + tail, c);
            r == Finished(false, tail, [ButtonsShown(anybody, specific)])
  {
    var script := [CancelReply] + tail;
    assert script[1..] == tail;
  }

  /** An explicit rule (one of the two "Always" buttons, or any rule typed
      in) is stored and the store decides. */
  lemma ExplicitRuleIsStored(anybody: PermissionRule, specific: PermissionRule,
                             working: PermissionRule, given: PermissionRule,
                             tail: seq<Response>, c: Collaborators)
    ensures var r := GrantLoop(anybody, specific, working, [PermissionReply(RuleAnswer(given))] + tail, c);
            && r.Finished? && r.rest == tail
            && r.trace == [ButtonsShown(anybody, specific), PermissionAdded(given)]
            && r.value == c.store.allowedUnder(c.store.stored + [given])
  {
    var script := [PermissionReply(RuleAnswer(given))] + tail;
    assert script[1..] == tail;
  }

  /** "Always from anybody" stores the converted rule for the `null`
      principal, slots unchanged. */
  lemma AlwaysFromAnybody(program: Program, principal: string, identity: string,
                          tail: seq<Response>, c: Collaborators)
    requires ConvertToPermissionRule(principal, IdentityName(c.contacts, identity), program,
                                     c.optimize).Success?
    requires ConvertToPermissionRule(principal, IdentityName(c.contacts, identity), program,
                                     c.optimize).value.Some?
    ensures var rule := ConvertToPermissionRule(principal, IdentityName(c.contacts, identity),
                                                program, c.optimize).value.value;
            var r := PermissionGrant(program, principal, identity,
                                     [PermissionReply(RuleAnswer(AnybodyRule(rule)))] + tail, c);
            && r.Finished? && r.rest == tail
            && Added(r.trace) == [AnybodyRule(rule)]
            && AnybodyRule(rule).principal == Anybody
            && r.value == c.store.allowedUnder(c.store.stored + [AnybodyRule(rule)])
  {
    var contactName := IdentityName(c.contacts, identity);
    var rule := ConvertToPermissionRule(principal, contactName, program, c.optimize).value.value;
    var any := AnybodyRule(rule);
    ExplicitRuleIsStored(any, rule, EmptiedRule(rule), any, tail, c);
    var g := GrantLoop(any, rule, EmptiedRule(rule), [PermissionReply(RuleAnswer(any))] + tail, c);
    AddedSingle(ButtonsShown(any, rule));
    AddedSingle(PermissionAdded(any));
    AddedConcat([ButtonsShown(any, rule)], [PermissionAdded(any)]);
    assert [ButtonsShown(any, rule)] + [PermissionAdded(any)] == g.trace;
    AddedSingle(IconSet(ComputeIcon(program)));
    AddedSingle(Announced(contactName));
    AddedConcat([IconSet(ComputeIcon(program))], [Announced(contactName)]);
    AddedPrefix([IconSet(ComputeIcon(program))] + [Announced(contactName)], g);
  }

  /** Maybe hands the rest of the script to the refinement. */
  lemma MaybeOpensRefinement(anybody: PermissionRule, specific: PermissionRule,
                             working: PermissionRule, script: seq<Response>, c: Collaborators)
    ensures GrantLoop(anybody, specific, working, [PermissionReply(Maybe)] + script, c)
         == MaybeRound(anybody, specific, working, script, [ButtonsShown(anybody, specific)], c)
  {
    var full := [PermissionReply(Maybe)] + script;
    assert full[1..] == script;
    assert Await(full, AsPermissionAnswer) == Got(Maybe, script);
  }

  /** Maybe, then a refinement that ends in `null`: the five buttons come
      back, with the working rule as the refinement left it. */
  lemma MaybeThenNothing(anybody: PermissionRule, specific: PermissionRule, working: PermissionRule,
                         script: seq<Response>, c: Collaborators)
    requires var f := AddFilter(working, script, c.optimize, c.describeArg);
             f.Finished? && f.value.result.None?
    ensures var f := AddFilter(working, script, c.optimize, c.describeArg);
            GrantLoop(anybody, specific, working, [PermissionReply(Maybe)] + script, c)
            == Prefix([ButtonsShown(anybody, specific)] + Lift(f.trace),
                      GrantLoop(anybody, specific, f.value.working, f.rest, c))
  {
    MaybeOpensRefinement(anybody, specific, working, script, c);
  }

  /** Maybe, then a refinement that ends in a rule: that rule is stored
      and the store decides. */
  lemma MaybeThenRule(anybody: PermissionRule, specific: PermissionRule, working: PermissionRule,
                      script: seq<Response>, c: Collaborators)
    requires var f := AddFilter(working, script, c.optimize, c.describeArg);
             f.Finished? && f.value.result.Some?
    ensures var f := AddFilter(working, script, c.optimize, c.describeArg);
            var r := GrantLoop(anybody, specific, working, [PermissionReply(Maybe)] + script, c);
            && r.Finished? && r.rest == f.rest
            && r.value == c.store.allowedUnder(c.store.stored + [f.value.result.value])
            && LastEvent(r.trace, PermissionAdded(f.value.result.value))
  {
    MaybeOpensRefinement(anybody, specific, working, script, c);
    var f := AddFilter(working, script, c.optimize, c.describeArg);
    var events := [ButtonsShown(anybody, specific)] + Lift(f.trace);
    var r := MaybeRound(anybody, specific, working, script, [ButtonsShown(anybody, specific)], c);
    assert r == Settle(f.value.result.value, f.rest, events, c.store);
  }

  /** Maybe, then Back at the slot menu, brings the five buttons back with
      the working rule unchanged. */
  lemma MaybeThenBack(anybody: PermissionRule, specific: PermissionRule, working: PermissionRule,
                      tail: seq<Response>, c: Collaborators)
    ensures var r := GrantLoop(anybody, specific, working,
                               [PermissionReply(Maybe)] + ([ChoiceReply(|Menu(working)| - 1)] + tail), c);
            var again := GrantLoop(anybody, specific, working, tail, c);
            SameEnd(r, again)
  {
    BackReturnsNothing(working, tail, c.optimize, c.describeArg);
    MaybeThenNothing(anybody, specific, working, [ChoiceReply(|Menu(working)| - 1)] + tail, c);
  }

  /** Maybe, then Done at the slot menu, stores the working rule as it
      stands. */
  lemma MaybeThenDone(anybody: PermissionRule, specific: PermissionRule, working: PermissionRule,
                      tail: seq<Response>, c: Collaborators)
    ensures var r := GrantLoop(anybody, specific, working,
                               [PermissionReply(Maybe)] + ([ChoiceReply(|Menu(working)| - 2)] + tail), c);
            && r.Finished? && r.rest == tail
            && r.value == c.store.allowedUnder(c.store.stored + [working])
            && LastEvent(r.trace, PermissionAdded(working))
  {
    var done := [ChoiceReply(|Menu(working)| - 2)] + tail;
    DoneReturnsRule(working, tail, c.optimize, c.describeArg);
    var f := AddFilter(working, done, c.optimize, c.describeArg);
    assert f.Finished? && f.value.result == Some(working) && f.rest == tail;
    MaybeThenRule(anybody, specific, working, done, c);
  }

  /** Maybe, then a predicate on a slot, then Back at the menu: the five
      buttons come back, and the working rule now carries the predicate. */
  lemma RefineThenBack(anybody: PermissionRule, specific: PermissionRule, working: PermissionRule,
                       i: nat, p: BoolExpr, after: seq<Response>, c: Collaborators)
    requires i < |Menu(working)| - 2
    requires WellFormedSchema(SlotOf(working, MenuSlot(working, i)).schema)
    ensures var first := [ChoiceReply(i)] + ([PermissionReply(PredicateAnswer(p))]
                         + ([ChoiceReply(|Menu(working)| - 1)] + after));
            var next := Conjoin(working, MenuSlot(working, i), p, c.optimize);
            GrantLoop(anybody, specific, working, [PermissionReply(Maybe)] + first, c)
            == Prefix([ButtonsShown(anybody, specific)] + Lift(AddFilter(working, first, c.optimize, c.describeArg).trace),
                      GrantLoop(anybody, specific, next, after, c))
  {
    var first := [ChoiceReply(i)] + ([PermissionReply(PredicateAnswer(p))]
                 + ([ChoiceReply(|Menu(working)| - 1)] + after));
    PredicateThenLeave(working, i, p, false, after, c.optimize, c.describeArg);
    MaybeThenNothing(anybody, specific, working, first, c);
  }

  /** Maybe then Done on a rule of the same shape as `working`, pressing
      Done at its position in `working`'s menu, stores that rule. */
  lemma MaybeThenDoneAtSameShape(anybody: PermissionRule, specific: PermissionRule,
                                 working: PermissionRule, next: PermissionRule,
                                 tail: seq<Response>, c: Collaborators)
    requires SameShape(next, working)
    ensures var r := GrantLoop(anybody, specific, next,
                               [PermissionReply(Maybe)] + ([ChoiceReply(|Menu(working)| - 2)] + tail), c);
            && r.Finished? && r.rest == tail
            && r.value == c.store.allowedUnder(c.store.stored + [next])
            && LastEvent(r.trace, PermissionAdded(next))
  {
    var k := |Menu(working)| - 2;
    assert |Menu(next)| - 2 == k by {
      SameShapeSameMenu(next, working);
    }
    MaybeThenDone(anybody, specific, next, tail, c);
    assert [PermissionReply(Maybe)] + ([ChoiceReply(k)] + tail)
        == [PermissionReply(Maybe)] + ([ChoiceReply(|Menu(next)| - 2)] + tail);
  }

  /** Maybe, then a predicate on a slot, then Back: the buttons come back,
      but the predicate stays on the working rule, so a second Maybe
      followed by Done stores the rule with that predicate. */
  lemma BackKeepsEarlierFilters(anybody: PermissionRule, specific: PermissionRule,
                                working: PermissionRule, i: nat, p: BoolExpr,
                                tail: seq<Response>, c: Collaborators)
    requires i < |Menu(working)| - 2
    requires WellFormedSchema(SlotOf(working, MenuSlot(working, i)).schema)
    ensures var next := Conjoin(working, MenuSlot(working, i), p, c.optimize);
            var second := [PermissionReply(Maybe)] + ([ChoiceReply(|Menu(working)| - 2)] + tail);
            var script := [PermissionReply(Maybe)] + ([ChoiceReply(i)] + ([PermissionReply(PredicateAnswer(p))]
                          + ([ChoiceReply(|Menu(working)| - 1)] + second)));
            var r := GrantLoop(anybody, specific, working, script, c);
            && r.Finished? && r.rest == tail
            && r.value == c.store.allowedUnder(c.store.stored + [next])
            && LastEvent(r.trace, PermissionAdded(next))
  {
    var slot := MenuSlot(working, i);
    var next := Conjoin(working, slot, p, c.optimize);
    var second := [PermissionReply(Maybe)] + ([ChoiceReply(|Menu(working)| - 2)] + tail);
    var first := [ChoiceReply(i)] + ([PermissionReply(PredicateAnswer(p))]
                 + ([ChoiceReply(|Menu(working)| - 1)] + second));
    var g := GrantLoop(anybody, specific, next, second, c);
    ConjoinSameShape(working, slot, p, c.optimize);
    MaybeThenDoneAtSameShape(anybody, specific, working, next, tail, c);
    var events := [ButtonsShown(anybody, specific)] + Lift(AddFilter(working, first, c.optimize, c.describeArg).trace);
    assert GrantLoop(anybody, specific, working, [PermissionReply(Maybe)] + first, c) == Prefix(events, g) by {
      RefineThenBack(anybody, specific, working, i, p, second, c);
    }
    PrefixLastEvent(events, g, PermissionAdded(next));
  }

  // ---------------------------------------------------------------------
  // The rejected-program path
  // ---------------------------------------------------------------------

  /** As written, a program the conversion rejects makes the dialog fail
      before it asks anything, whatever the user would answer: the yes/no
      question meant for this case is never reached. */
  lemma RejectedProgramFails(program: Program, principal: string, identity: string,
                             script: seq<Response>, c: Collaborators)
    requires Unrepresentable(program)
    ensures PermissionGrant(program, principal, identity, script, c)
         == Raised(NullCopy, script, [IconSet(ComputeIcon(program))])
    ensures !IsCancelled(NullCopy)
  {
  }

  /** The dialog as evidently intended: a rejected program is described and
      the user answers a plain yes/no question, a cancellation being a no. */
  function PermissionGrantIntended(program: Program, principal: string, identity: string,
                                   script: seq<Response>, c: Collaborators)
    : (r: Flow<bool, GrantEvent>)
    ensures !r.Suspended? ==> |r.rest| <= |script|
    ensures Unrepresentable(program) ==>
      && r.trace == [IconSet(ComputeIcon(program)), Announced(IdentityName(c.contacts, identity))]
      && !r.Raised?
      && (r.Suspended? <==> forall j :: 0 <= j < |script| ==> PassedOver(script[j], AsYesNo))
      && (r.Finished? ==>
            && |r.rest| < |script| && r.rest == script[|script| - |r.rest|..]
            && r.value == (script[|script| - |r.rest| - 1] == YesNoReply(true)))
  {
    var contactName := IdentityName(c.contacts, identity);
    var icon := [IconSet(ComputeIcon(program))];
    match ConvertToPermissionRule(principal, contactName, program, c.optimize)
    case Failure(e) => Raised(e, script, icon)
    case Success(None) =>
      var asked := icon + [Announced(contactName)];
      (match Await(script, AsYesNo)
       case Starved => Suspended(asked)
       case Cancel(rest) => Finished(false, rest, asked)
       case Got(yes, rest) => Finished(yes, rest, asked))
    case Success(Some(rule)) =>
      Prefix(icon + [Announced(contactName)],
             GrantLoop(AnybodyRule(rule), rule, EmptiedRule(rule), script, c))
  }

  /** With the intended definition, a rejected program is decided by the
      user's yes or no, and nothing is stored. */
  lemma RejectedProgramAsks(program: Program, principal: string, identity: string, yes: bool,
                            tail: seq<Response>, c: Collaborators)
    requires Unrepresentable(program)
    ensures var r := PermissionGrantIntended(program, principal, identity, [YesNoReply(yes)] + tail, c);
            r.Finished? && r.value == yes && r.rest == tail && Added(r.trace) == []
  {
    var script := [YesNoReply(yes)] + tail;
    assert script[1..] == tail;
    assert Await(script, AsYesNo) == Got(yes, tail);
    var contactName := IdentityName(c.contacts, identity);
    AddedSingle(IconSet(ComputeIcon(program)));
    AddedSingle(Announced(contactName));
    AddedConcat([IconSet(ComputeIcon(program))], [Announced(contactName)]);
  }

  /** The intended definition differs from the written one only on
      rejected programs. */
  lemma IntendedAgreesElsewhere(program: Program, principal: string, identity: string,
                                script: seq<Response>, c: Collaborators)
    requires !Unrepresentable(program)
    ensures PermissionGrantIntended(program, principal, identity, script, c)
         == PermissionGrant(program, principal, identity, script, c)
  {
  }
}
