/** Turning a program submitted by a remote principal into a three-slot
    permission rule (trigger, query, action), resolving the principal's
    display name, and choosing the icon shown during the negotiation. */
module PermissionConversion {
  import opened Js
  import opened ThingTalk

  /** The contacts capability: `None` when the platform has none, otherwise
      the display name recorded for each known identity. */
  type Contacts = Option<map<string, string>>

  const OmletScheme: string := "omlet"
  const RemoteKind: string := "org.thingpedia.builtin.thingengine.remote"
  const DynamicPrefix: string := "__dyn_"

  // ---------------------------------------------------------------------
  // Principal display name
  // ---------------------------------------------------------------------

  /** The display name of an identity `scheme:id`: a canned template for
      Omlet users, otherwise the contact's display name, falling back to
      the second field of the identity (`undefined` when it has none). */
  function IdentityName(contacts: Contacts, identity: string): (name: Option<string>)
    ensures Split(identity, ':')[0] == OmletScheme ==> name.Some? && "Omlet User @" <= name.value
    ensures name.None? ==> |Split(identity, ':')| == 1 && !(contacts.Some? && identity in contacts.value)
  {
    var split := Split(identity, ':');
    if split[0] == OmletScheme then Some("Omlet User @" + Str(Piece(split, 1)))
    else if contacts.Some? && identity in contacts.value then Some(contacts.value[identity])
    else Piece(split, 1)
  }

  /** For a well-formed identity `scheme:id`, the name is built from `id`:
      Omlet users get the template, unknown contacts get `id` itself, known
      contacts get their directory name. */
  lemma IdentityNameOfSchemeAndId(contacts: Contacts, scheme: string, id: string)
    requires ':' !in scheme && ':' !in id
    ensures scheme == OmletScheme ==>
      IdentityName(contacts, scheme + ":" + id) == Some("Omlet User @" + id)
    ensures scheme != OmletScheme && contacts.Some? && scheme + ":" + id in contacts.value ==>
      IdentityName(contacts, scheme + ":" + id) == Some(contacts.value[scheme + ":" + id])
    ensures scheme != OmletScheme && !(contacts.Some? && scheme + ":" + id in contacts.value) ==>
      IdentityName(contacts, scheme + ":" + id) == Some(id)
  {
    var parts := [scheme, id];
    assert Join(parts, ':') == scheme + ":" + id by {
      assert Join(parts[1..], ':') == id;
    }
    SplitJoin(parts, ':');
  }

  // ---------------------------------------------------------------------
  // Remote primitives
  // ---------------------------------------------------------------------

  predicate IsRemoteKind(kind: string) {
    kind == RemoteKind || DynamicPrefix <= kind
  }

  /** A trigger that receives data from another principal. */
  predicate IsRemoteReceive(fn: Invocation)
    ensures IsRemoteReceive(fn) ==> !IsRemoteSend(fn)
  {
    IsRemoteKind(fn.kind) && fn.channel == "receive"
  }

  /** An action that sends data to another principal. */
  predicate IsRemoteSend(fn: Invocation)
    ensures IsRemoteSend(fn) ==> fn.channel != "receive" && |fn.kind| > 0
  {
    IsRemoteKind(fn.kind) && fn.channel == "send"
  }

  // ---------------------------------------------------------------------
  // Converting one primitive
  // ---------------------------------------------------------------------

  /** The variables bound so far by output parameters of earlier slots. */
  type Scope = map<string, string>

  /** `!scope[v.name]` for a variable reference: the variable is not bound
      by an earlier slot (or is bound to the empty, hence falsy, name). */
  predicate UnboundRef(v: Value, scope: Scope) {
    v.VarRef? && !(v.name in scope && scope[v.name] != "")
  }

  /** One equality filter per input parameter, in order, leaving out the
      references to variables that are not in scope yet. */
  function EqualityFilters(params: seq<InParam>, scope: Scope): (fs: seq<Filter>)
    ensures |fs| <= |params|
    ensures forall f :: f in fs ==>
      f.op == "=" && !UnboundRef(f.value, scope) && InParam(f.name, f.value) in params
    ensures forall p :: p in params && !UnboundRef(p.value, scope) ==>
      Filter(p.name, "=", p.value) in fs
    ensures (forall p :: p in params ==> !UnboundRef(p.value, scope)) ==> |fs| == |params|
    decreases |params|
  {
    if |params| == 0 then []
    else
      var rest := EqualityFilters(params[1..], scope);
      assert forall p :: p in params[1..] ==> p in params;
      assert forall p :: p in params && p != params[0] ==> p in params[1..];
      if UnboundRef(params[0].value, scope) then rest
      else [Filter(params[0].name, "=", params[0].value)] + rest
  }

  /** A single input parameter gives its equality filter, unless it refers
      to a variable that is not in scope. */
  lemma EqualityFiltersSingle(p: InParam, scope: Scope)
    ensures EqualityFilters([p], scope)
         == if UnboundRef(p.value, scope) then [] else [Filter(p.name, "=", p.value)]
  {
    assert [p][1..] == [];
  }

  /** The filters of a joined parameter list are the filters of each part,
      in order: with the single-parameter case this fixes the filters
      exactly, one per kept parameter, in input order. */
  lemma {:induction false} EqualityFiltersAppend(a: seq<InParam>, b: seq<InParam>, scope: Scope)
    ensures EqualityFilters(a + b, scope) == EqualityFilters(a, scope) + EqualityFilters(b, scope)
    decreases |a|
  {
    if |a| == 0 {
      assert a + b == b;
    } else {
      assert (a + b)[0] == a[0];
      assert (a + b)[1..] == a[1..] + b;
      EqualityFiltersAppend(a[1..], b, scope);
    }
  }

  function Atoms(fs: seq<Filter>): (es: seq<BoolExpr>)
    ensures |es| == |fs|
    ensures forall i :: 0 <= i < |fs| ==> es[i] == Atom(fs[i])
  {
    seq(|fs|, i requires 0 <= i < |fs| => Atom(fs[i]))
  }

  /** The names the output parameters bind. */
  function OutNames(outs: seq<OutParam>): (names: set<string>)
    ensures forall i :: 0 <= i < |outs| ==> outs[i].name in names
    decreases |outs|
  {
    if |outs| == 0 then {}
    else
      var front := outs[..|outs| - 1];
      assert forall i :: 0 <= i < |front| ==> front[i] == outs[i];
      OutNames(front) + {outs[|outs| - 1].name}
  }

  /** The scope after the output parameters `outs` are bound, in order (a
      later binding of the same name wins): it binds exactly the names it
      had and the output names. */
  function BindOutputs(scope: Scope, outs: seq<OutParam>): (s: Scope)
    ensures s.Keys == scope.Keys + OutNames(outs)
    decreases |outs|
  {
    if |outs| == 0 then scope
    else BindOutputs(scope, outs[..|outs| - 1])[outs[|outs| - 1].name := outs[|outs| - 1].value]
  }

  /** A name no output binds keeps its value. */
  lemma {:induction false} BindOutputsKeeps(scope: Scope, outs: seq<OutParam>, k: string)
    requires k in scope && k !in OutNames(outs)
    ensures BindOutputs(scope, outs)[k] == scope[k]
    decreases |outs|
  {
    if |outs| > 0 {
      BindOutputsKeeps(scope, outs[..|outs| - 1], k);
    }
  }

  /** An output that no later output rebinds leaves its value in scope. */
  lemma {:induction false} BindOutputsLastWins(scope: Scope, outs: seq<OutParam>, i: nat)
    requires i < |outs| && LastBinding(outs, i)
    ensures BindOutputs(scope, outs)[outs[i].name] == outs[i].value
    decreases |outs|
  {
    if i < |outs| - 1 {
      var front := outs[..|outs| - 1];
      assert front[i] == outs[i];
      assert LastBinding(front, i) by {
        forall j | i < j < |front| ensures front[j].name != front[i].name {
          assert front[j] == outs[j];
        }
      }
      BindOutputsLastWins(scope, front, i);
    }
  }

  /** No output after the `i`-th binds the same name again. */
  predicate LastBinding(outs: seq<OutParam>, i: int)
    requires 0 <= i < |outs|
  {
    forall j :: i < j < |outs| ==> outs[j].name != outs[i].name
  }

  /** The output parameters a slot's primitive binds (none when missing). */
  function SlotOuts(prim: Option<Invocation>): seq<OutParam> {
    if prim.None? then [] else prim.value.outParams
  }

  /** Binding two lists of outputs one after the other binds them joined. */
  lemma {:induction false} BindOutputsAppend(scope: Scope, a: seq<OutParam>, b: seq<OutParam>)
    ensures BindOutputs(BindOutputs(scope, a), b) == BindOutputs(scope, a + b)
    decreases |b|
  {
    if |b| > 0 {
      var front := b[..|b| - 1];
      BindOutputsAppend(scope, a, front);
      assert (a + b)[..|a + b| - 1] == a + front;
      assert (a + b)[|a + b| - 1] == b[|b| - 1];
    } else {
      assert a + b == a;
    }
  }

  /** One slot of the rule. A missing primitive is unconstrained; otherwise
      its own filter is conjoined with the equality filters computed against
      the scope as it stood BEFORE this primitive, the conjunction is handed
      to the predicate simplifier, and only then are the primitive's outputs
      bound. */
  function ConvertPrimitive(prim: Option<Invocation>, scope: Scope,
                            optimize: BoolExpr -> BoolExpr): (r: (PermissionFunction, Scope))
    ensures prim.None? ==> r.0 == Builtin && r.1 == scope
    ensures prim.Some? ==>
      && r.0.Specified?
      && r.0.kind == prim.value.kind && r.0.channel == prim.value.channel
      && r.0.outParams == prim.value.outParams && r.0.schema == prim.value.schema
      && r.0.filter == optimize(And([prim.value.filter,
                                     And(Atoms(EqualityFilters(prim.value.inParams, scope)))]))
      && r.1.Keys == scope.Keys + OutNames(prim.value.outParams)
    ensures r.1 == BindOutputs(scope, SlotOuts(prim))
  {
    match prim
    case None => (Builtin, scope)
    case Some(p) =>
      var filter := optimize(And([p.filter, And(Atoms(EqualityFilters(p.inParams, scope)))]));
      (Specified(p.kind, p.channel, filter, p.outParams, p.schema), BindOutputs(scope, p.outParams))
  }

  // ---------------------------------------------------------------------
  // Converting a program
  // ---------------------------------------------------------------------

  /** The program has more instances than a rule can represent. The action
      count includes builtin actions. */
  predicate Unrepresentable(program: Program) {
    || |program.rules| > 1
    || (|program.rules| == 1 && (|program.rules[0].queries| > 1 || |program.rules[0].actions| > 1))
  }

  /** The trigger that occupies the trigger slot, if any. */
  function TriggerOf(rule: Rule): Option<Invocation> {
    if rule.trigger.Some? && !IsRemoteReceive(rule.trigger.value) then rule.trigger else None
  }

  function QueryOf(rule: Rule): Option<Invocation> {
    if |rule.queries| == 1 then Some(rule.queries[0]) else None
  }

  /** The action that occupies the action slot, if any. */
  function ActionOf(rule: Rule): Option<Invocation>
    requires |rule.actions| >= 1
  {
    match rule.actions[0]
    case BuiltinAction => None
    case DeviceAction(a) => if IsRemoteSend(a) then None else Some(a)
  }

  /** `convertToPermissionRule`: `Success(None)` is the `null` rejection,
      `Failure` a TypeError from reading a rule or an action that is not
      there. */
  function ConvertToPermissionRule(principal: string, contactName: Option<string>,
                                   program: Program, optimize: BoolExpr -> BoolExpr)
    : (r: Result<Option<PermissionRule>>)
    ensures r == Success(None) <==> Unrepresentable(program)
    ensures r.Failure? <==>
      |program.rules| == 0 ||
      (|program.rules| == 1 && |program.rules[0].queries| <= 1 && |program.rules[0].actions| == 0)
    ensures r.Failure? ==> !IsCancelled(r.error)
    ensures r.Success? && r.value.Some? ==>
      var rule := program.rules[0];
      var pr := r.value.value;
      && |program.rules| == 1 && |rule.queries| <= 1 && |rule.actions| == 1
      && pr.principal == Contact(principal, contactName)
      && (pr.trigger.Builtin? <==> rule.trigger.None? || IsRemoteReceive(rule.trigger.value))
      && (pr.query.Builtin? <==> |rule.queries| == 0)
      && (pr.action.Builtin? <==>
            rule.actions[0].BuiltinAction? || IsRemoteSend(rule.actions[0].invocation))
    ensures r.Success? && r.value.Some? ==>
      var rule := program.rules[0];
      var afterTrigger := BindOutputs(map[], SlotOuts(TriggerOf(rule)));
      var afterQuery := BindOutputs(map[], SlotOuts(TriggerOf(rule)) + SlotOuts(QueryOf(rule)));
      && r.value.value.trigger == ConvertPrimitive(TriggerOf(rule), map[], optimize).0
      && r.value.value.query == ConvertPrimitive(QueryOf(rule), afterTrigger, optimize).0
      && r.value.value.action == ConvertPrimitive(ActionOf(rule), afterQuery, optimize).0
  {
    if |program.rules| > 1 then Success(None)
    else if |program.rules| == 0 then Failure(TypeError("Cannot read property 'trigger' of undefined"))
    else
      var rule := program.rules[0];
      if |rule.queries| > 1 then Success(None)
      else if |rule.actions| > 1 then Success(None)
      else if |rule.actions| == 0 then Failure(TypeError("Cannot read property 'selector' of undefined"))
      else
        var (trigger, s1) := ConvertPrimitive(TriggerOf(rule), map[], optimize);
        var (query, s2) := ConvertPrimitive(QueryOf(rule), s1, optimize);
        BindOutputsAppend(map[], SlotOuts(TriggerOf(rule)), SlotOuts(QueryOf(rule)));
        var (action, _) := ConvertPrimitive(ActionOf(rule), s2, optimize);
        Success(Some(PermissionRule(Contact(principal, contactName), trigger, query, action)))
  }

  /** A program with no trigger, one query and only a builtin action becomes
      a rule whose query filter freezes every input of the query except the
      variable references (which nothing earlier binds), and whose trigger
      and action slots are unconstrained. */
  lemma QueryOnlyProgramConversion(principal: string, contactName: Option<string>,
                                   q: Invocation, optimize: BoolExpr -> BoolExpr)
    ensures
      var program := Program([Rule(None, [q], [BuiltinAction])]);
      var r := ConvertToPermissionRule(principal, contactName, program, optimize);
      && r.Success? && r.value.Some?
      && r.value.value.trigger == Builtin
      && r.value.value.action == Builtin
      && r.value.value.query.Specified?
      && r.value.value.query.kind == q.kind
      && r.value.value.query.filter ==
           optimize(And([q.filter, And(Atoms(EqualityFilters(q.inParams, map[])))]))
      && (forall f :: f in EqualityFilters(q.inParams, map[]) ==> !f.value.VarRef?)
      && (forall p :: p in q.inParams && !p.value.VarRef? ==>
            Filter(p.name, "=", p.value) in EqualityFilters(q.inParams, map[]))
  {
  }

  /** A variable bound by the trigger's outputs is in scope for the query:
      converting a trigger-query-action program freezes the query's input
      that refers to it into the query slot's filter, whereas the query
      converted on its own would leave that input out. */
  lemma TriggerOutputsBindQueryReferences(principal: string, contactName: Option<string>,
                                          t: Invocation, q: Invocation, act: Action,
                                          x: string, v: string, param: string,
                                          optimize: BoolExpr -> BoolExpr)
    requires !IsRemoteReceive(t)
    requires InParam(param, VarRef(x)) in q.inParams
    requires |t.outParams| >= 1 && t.outParams[|t.outParams| - 1] == OutParam(x, v) && v != ""
    ensures
      var r := ConvertToPermissionRule(principal, contactName, Program([Rule(Some(t), [q], [act])]), optimize);
      var fs := EqualityFilters(q.inParams, BindOutputs(map[], t.outParams));
      && r.Success? && r.value.Some?
      && r.value.value.query.Specified?
      && r.value.value.query.filter == optimize(And([q.filter, And(Atoms(fs))]))
      && Filter(param, "=", VarRef(x)) in fs
      && Filter(param, "=", VarRef(x)) !in EqualityFilters(q.inParams, map[])
  {
    var s1 := BindOutputs(map[], t.outParams);
    BindOutputsLastWins(map[], t.outParams, |t.outParams| - 1);
    assert s1[x] == v;
  }

  /** A variable bound by the query's outputs is in scope for the action,
      whatever the trigger binds: the action's input that refers to it is
      frozen into the action slot's filter. */
  lemma QueryOutputsBindActionReferences(principal: string, contactName: Option<string>,
                                         trigger: Option<Invocation>, q: Invocation, a: Invocation,
                                         x: string, v: string, param: string,
                                         optimize: BoolExpr -> BoolExpr)
    requires !IsRemoteSend(a)
    requires InParam(param, VarRef(x)) in a.inParams
    requires |q.outParams| >= 1 && q.outParams[|q.outParams| - 1] == OutParam(x, v) && v != ""
    ensures
      var rule := Rule(trigger, [q], [DeviceAction(a)]);
      var r := ConvertToPermissionRule(principal, contactName, Program([rule]), optimize);
      var scope := BindOutputs(map[], SlotOuts(TriggerOf(rule)) + q.outParams);
      && r.Success? && r.value.Some?
      && r.value.value.action.Specified?
      && r.value.value.action.filter == optimize(And([a.filter, And(Atoms(EqualityFilters(a.inParams, scope)))]))
      && Filter(param, "=", VarRef(x)) in EqualityFilters(a.inParams, scope)
  {
    var rule := Rule(trigger, [q], [DeviceAction(a)]);
    var s1 := BindOutputs(map[], SlotOuts(TriggerOf(rule)));
    BindOutputsAppend(map[], SlotOuts(TriggerOf(rule)), q.outParams);
    BindOutputsLastWins(s1, q.outParams, |q.outParams| - 1);
  }

  // ---------------------------------------------------------------------
  // Icon
  // ---------------------------------------------------------------------

  /** The kinds of every trigger, query and non-builtin action of every rule,
      in program order. */
  function PrimitiveKinds(rules: seq<Rule>): (ks: seq<string>)
    ensures forall k :: k in ks ==> exists i :: 0 <= i < |rules| && k in RuleKinds(rules[i])
    decreases |rules|
  {
    if |rules| == 0 then []
    else
      var rest := PrimitiveKinds(rules[1..]);
      assert forall k :: k in rest ==> exists i :: 1 <= i < |rules| && k in RuleKinds(rules[i]) by {
        forall k | k in rest ensures exists i :: 1 <= i < |rules| && k in RuleKinds(rules[i]) {
          var i :| 0 <= i < |rules[1..]| && k in RuleKinds(rules[1..][i]);
          assert rules[1..][i] == rules[i + 1];
        }
      }
      RuleKinds(rules[0]) + rest
  }

  /** The kinds of one rule: its trigger, its queries in order, then its
      device actions in order; builtin actions have none. */
  function RuleKinds(r: Rule): seq<string> {
    (if r.trigger.Some? then [r.trigger.value.kind] else [])
    + seq(|r.queries|, i requires 0 <= i < |r.queries| => r.queries[i].kind)
    + DeviceKinds(r.actions)
  }

  /** One rule lists exactly its own kinds: trigger, queries, device
      actions. */
  lemma PrimitiveKindsSingle(r: Rule)
    ensures PrimitiveKinds([r]) == RuleKinds(r)
  {
    assert [r][1..] == [];
  }

  /** The kinds of joined rule lists are those of each list, in order. */
  lemma {:induction false} PrimitiveKindsAppend(a: seq<Rule>, b: seq<Rule>)
    ensures PrimitiveKinds(a + b) == PrimitiveKinds(a) + PrimitiveKinds(b)
    decreases |a|
  {
    if |a| == 0 {
      assert a + b == b;
    } else {
      assert (a + b)[0] == a[0];
      assert (a + b)[1..] == a[1..] + b;
      PrimitiveKindsAppend(a[1..], b);
    }
  }

  function DeviceKinds(actions: seq<Action>): (ks: seq<string>)
    ensures |ks| <= |actions|
    ensures forall i :: 0 <= i < |actions| && actions[i].DeviceAction? ==> actions[i].invocation.kind in ks
    decreases |actions|
  {
    if |actions| == 0 then []
    else
      (if actions[0].DeviceAction? then [actions[0].invocation.kind] else [])
      + DeviceKinds(actions[1..])
  }

  /** One action lists its kind when it is a device action, and nothing
      when it is builtin. */
  lemma DeviceKindsSingle(a: Action)
    ensures a.BuiltinAction? ==> DeviceKinds([a]) == []
    ensures a.DeviceAction? ==> DeviceKinds([a]) == [a.invocation.kind]
  {
    assert [a][1..] == [];
  }

  /** The kinds of joined action lists are those of each list, in order;
      with the single case, the device actions' kinds in action order. */
  lemma {:induction false} DeviceKindsAppend(a: seq<Action>, b: seq<Action>)
    ensures DeviceKinds(a + b) == DeviceKinds(a) + DeviceKinds(b)
    decreases |a|
  {
    if |a| == 0 {
      assert a + b == b;
    } else {
      assert (a + b)[0] == a[0];
      assert (a + b)[1..] == a[1..] + b;
      DeviceKindsAppend(a[1..], b);
    }
  }

  /** A kind that names a device class (it has a dot) and is not a remote
      one. Note the tests differ from `IsRemoteKind`: `remote` and the
      prefix `__dyn`. */
  predicate IconKind(kind: string) {
    kind != "remote" && !("__dyn" <= kind) && '.' in kind
  }

  /** The `i`-th kind can serve as an icon and no later one can. */
  predicate LastIconAt(kinds: seq<string>, i: int)
    requires 0 <= i < |kinds|
  {
    IconKind(kinds[i]) && forall j :: i < j < |kinds| ==> !IconKind(kinds[j])
  }

  /** The last kind in the list that can serve as an icon. */
  function LastIconKind(kinds: seq<string>): (r: Option<string>)
    ensures r.None? <==> forall i :: 0 <= i < |kinds| ==> !IconKind(kinds[i])
    ensures r.Some? ==> exists i :: 0 <= i < |kinds| && kinds[i] == r.value && LastIconAt(kinds, i)
    decreases |kinds|
  {
    if |kinds| == 0 then None
    else if IconKind(kinds[|kinds| - 1]) then Some(kinds[|kinds| - 1])
    else
      var front := kinds[..|kinds| - 1];
      var r := LastIconKind(front);
      assert forall i :: 0 <= i < |front| ==> front[i] == kinds[i];
      assert r.Some? ==> forall i :: 0 <= i < |front| && LastIconAt(front, i) ==> LastIconAt(kinds, i);
      r
  }

  /** `computeIcon`: the icon of the negotiation. */
  function ComputeIcon(program: Program): (icon: Option<string>)
    ensures icon.None? <==> forall k :: k in PrimitiveKinds(program.rules) ==> !IconKind(k)
    ensures icon.Some? ==> IconKind(icon.value) && icon.value in PrimitiveKinds(program.rules)
    ensures var ks := PrimitiveKinds(program.rules);
            icon.Some? ==> exists i :: 0 <= i < |ks| && ks[i] == icon.value && LastIconAt(ks, i)
  {
    LastIconKind(PrimitiveKinds(program.rules))
  }
}
