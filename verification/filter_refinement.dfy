/** The refinement dialog that narrows a permission rule: the per-type table
    of filter candidates, the text of a filter, the slot menu, the filter
    buttons with their machine-readable payloads, and the `addFilter` loop
    itself, driven by the scripted responses. */
module FilterRefinement {
  import opened Js
  import opened ThingTalk
  import opened Suspension

  /** The predicate simplifier (`optimizeFilter`) and the value describer
      (`describeArg`), both ThingTalk's. */
  type Simplifier = BoolExpr -> BoolExpr
  type ValueDescriber = Value -> string

  // ---------------------------------------------------------------------
  // Filter text
  // ---------------------------------------------------------------------

  /** The operators `describeFilter` has a template for. */
  const DescribedOperators: set<string> :=
    {"contains", "substr", "=~", "in_array", "~=", "=", "!=", "<", ">", "<=", ">="}

  /** The operators whose template names the value before the argument. */
  predicate ValueFirst(op: string) {
    op == "in_array" || op == "~="
  }

  /** The words between the two operands of a described filter. */
  function Connective(op: string): string {
    if op in {"contains", "substr", "=~", "in_array", "~="} then " contains "
    else if op == "=" then " is equal to "
    else if op == "!=" then " is not equal to "
    else if op == "<" then " is less than "
    else if op == ">" then " is greater than "
    else if op == "<=" then " is less than or equal to "
    else " is greater than or equal to "
  }

  /** The canonical name of an argument, or its raw name when it has no
      (non-empty) canonical name. */
  function ArgLabel(schema: Schema, name: string): string {
    if name in schema.canonicals && schema.canonicals[name] != "" then schema.canonicals[name]
    else name
  }

  /** `describeFilter`: a sentence for one filter; any operator without a
      template is a TypeError. */
  function DescribeFilter(schema: Schema, filter: Filter, describeArg: ValueDescriber)
    : (r: Result<string>)
    ensures r.Failure? <==> filter.op !in DescribedOperators
    ensures r.Failure? ==> r.error == TypeError("Invalid operator " + filter.op)
    ensures r.Success? && ValueFirst(filter.op) ==>
      r.value == describeArg(filter.value) + Connective(filter.op) + ArgLabel(schema, filter.name)
    ensures r.Success? && !ValueFirst(filter.op) ==>
      r.value == ArgLabel(schema, filter.name) + Connective(filter.op) + describeArg(filter.value)
  {
    var value := describeArg(filter.value);
    var arg := ArgLabel(schema, filter.name);
    match filter.op
    case "contains" => Success(arg + " contains " + value)
    case "substr" => Success(arg + " contains " + value)
    case "=~" => Success(arg + " contains " + value)
    case "in_array" => Success(value + " contains " + arg)
    case "~=" => Success(value + " contains " + arg)
    case "=" => Success(arg + " is equal to " + value)
    case "!=" => Success(arg + " is not equal to " + value)
    case "<" => Success(arg + " is less than " + value)
    case ">" => Success(arg + " is greater than " + value)
    case "<=" => Success(arg + " is less than or equal to " + value)
    case ">=" => Success(arg + " is greater than or equal to " + value)
    case _ => Failure(TypeError("Invalid operator " + filter.op))
  }

  // ---------------------------------------------------------------------
  // Filter candidates
  // ---------------------------------------------------------------------

  /** The operators offered for a parameter of the given type. String
      "contains" is `=~`; array "contains" is `contains`. Numbers and
      measures get no `!=`. */
  function OperatorsFor(t: Type): seq<string> {
    match t
    case StringType => ["=", "!=", "=~"]
    case NumberType => ["=", "<", ">", ">=", "<="]
    case MeasureType(_) => ["=", "<", ">", ">=", "<="]
    case ArrayType(_) => ["contains"]
    case OtherType(_) => ["=", "!="]
  }

  function UndefinedFilters(name: string, ops: seq<string>): (fs: seq<Filter>)
    ensures |fs| == |ops|
    ensures forall i :: 0 <= i < |ops| ==> fs[i] == Filter(name, ops[i], Undefined)
  {
    seq(|ops|, i requires 0 <= i < |ops| => Filter(name, ops[i], Undefined))
  }

  /** The candidates for a list of arguments: each argument's operators,
      argument by argument, each with an undefined value. */
  function ArgCandidates(args: seq<Arg>): seq<Filter>
    decreases |args|
  {
    if |args| == 0 then []
    else UndefinedFilters(args[0].name, OperatorsFor(args[0].ty)) + ArgCandidates(args[1..])
  }

  /** One argument's candidates are its type's operators, in table order. */
  lemma ArgCandidatesSingle(a: Arg)
    ensures ArgCandidates([a]) == UndefinedFilters(a.name, OperatorsFor(a.ty))
  {
    assert [a][1..] == [];
  }

  /** The candidates of joined argument lists are those of each list, in
      order: with the single case this fixes the candidates exactly,
      argument by argument, each operator once. */
  lemma {:induction false} ArgCandidatesAppend(a: seq<Arg>, b: seq<Arg>)
    ensures ArgCandidates(a + b) == ArgCandidates(a) + ArgCandidates(b)
    decreases |a|
  {
    if |a| == 0 {
      assert a + b == b;
    } else {
      assert (a + b)[0] == a[0];
      assert (a + b)[1..] == a[1..] + b;
      ArgCandidatesAppend(a[1..], b);
    }
  }

  /** Every candidate comes from some argument and one of its type's
      operators, with an undefined value. */
  lemma {:induction false} ArgCandidatesSound(args: seq<Arg>, f: Filter)
    requires f in ArgCandidates(args)
    ensures f.value == Undefined
    ensures exists a :: a in args && a.name == f.name && f.op in OperatorsFor(a.ty)
    decreases |args|
  {
    var head := UndefinedFilters(args[0].name, OperatorsFor(args[0].ty));
    if f in head {
      var i :| 0 <= i < |head| && head[i] == f;
      assert args[0] in args;
    } else {
      assert f in ArgCandidates(args[1..]);
      ArgCandidatesSound(args[1..], f);
      var a :| a in args[1..] && a.name == f.name && f.op in OperatorsFor(a.ty);
      assert a in args;
    }
  }

  /** Every argument is offered with every operator of its type. */
  lemma {:induction false} ArgCandidatesComplete(args: seq<Arg>, a: Arg, op: string)
    requires a in args && op in OperatorsFor(a.ty)
    ensures Filter(a.name, op, Undefined) in ArgCandidates(args)
    decreases |args|
  {
    var head := UndefinedFilters(args[0].name, OperatorsFor(args[0].ty));
    if a == args[0] {
      var i :| 0 <= i < |OperatorsFor(a.ty)| && OperatorsFor(a.ty)[i] == op;
      assert head[i] == Filter(a.name, op, Undefined);
    } else {
      assert a in args[1..];
      ArgCandidatesComplete(args[1..], a, op);
    }
  }

  /** `makeFilterCandidates`: nothing for an unconstrained slot; otherwise
      the candidates of the required inputs followed by those of the
      outputs. */
  function MakeFilterCandidates(pf: PermissionFunction): (fs: seq<Filter>)
    ensures pf.Builtin? ==> fs == []
  {
    match pf
    case Builtin => []
    case Specified(_, _, _, _, schema) => ArgCandidates(schema.inReq) + ArgCandidates(schema.out)
  }

  /** The candidates of a specified slot are those of its required inputs
      followed by those of its outputs: exactly the table's operators for
      each such argument, each with an undefined value; optional inputs are
      never offered. An unconstrained slot has none. */
  lemma CandidateTable(pf: PermissionFunction)
    ensures pf.Builtin? ==> MakeFilterCandidates(pf) == []
    ensures pf.Specified? ==>
      MakeFilterCandidates(pf) == ArgCandidates(pf.schema.inReq) + ArgCandidates(pf.schema.out)
    ensures pf.Specified? ==> forall f :: f in MakeFilterCandidates(pf) ==>
      f.value == Undefined &&
      exists a :: a in pf.schema.inReq + pf.schema.out && a.name == f.name && f.op in OperatorsFor(a.ty)
    ensures pf.Specified? ==> forall a, op ::
      a in pf.schema.inReq + pf.schema.out && op in OperatorsFor(a.ty) ==>
        Filter(a.name, op, Undefined) in MakeFilterCandidates(pf)
  {
    if pf.Specified? {
      var schema := pf.schema;
      var all := schema.inReq + schema.out;
      var fs := MakeFilterCandidates(pf);
      forall f | f in fs
        ensures f.value == Undefined
        ensures exists a :: a in all && a.name == f.name && f.op in OperatorsFor(a.ty)
      {
        if f in ArgCandidates(schema.inReq) {
          ArgCandidatesSound(schema.inReq, f);
          var a :| a in schema.inReq && a.name == f.name && f.op in OperatorsFor(a.ty);
          assert a in all;
        } else {
          ArgCandidatesSound(schema.out, f);
          var a :| a in schema.out && a.name == f.name && f.op in OperatorsFor(a.ty);
          assert a in all;
        }
      }
      forall a, op | a in all && op in OperatorsFor(a.ty)
        ensures Filter(a.name, op, Undefined) in fs
      {
        if a in schema.inReq {
          ArgCandidatesComplete(schema.inReq, a, op);
        } else {
          ArgCandidatesComplete(schema.out, a, op);
        }
      }
    }
  }

  /** Every candidate can be described: the candidate operators are all
      among those `describeFilter` knows. */
  lemma CandidatesAreDescribable(pf: PermissionFunction, f: Filter, describeArg: ValueDescriber)
    requires pf.Specified? && f in MakeFilterCandidates(pf)
    ensures DescribeFilter(pf.schema, f, describeArg).Success?
  {
    CandidateTable(pf);
    var a :| a in pf.schema.inReq + pf.schema.out && a.name == f.name && f.op in OperatorsFor(a.ty);
    assert f.op in DescribedOperators by {
      match a.ty
      case StringType =>
      case NumberType =>
      case MeasureType(_) =>
      case ArrayType(_) =>
      case OtherType(_) =>
    }
  }

  /** The candidate table for a function with a single required input: its
      operators in table order, for every type, and nothing else. */
  lemma SingleArgumentCandidates(kind: string, channel: string, filter: BoolExpr,
                                 outs: seq<OutParam>, name: string, t: Type,
                                 canonicals: map<string, string>)
    ensures
      var pf := Specified(kind, channel, filter, outs, Schema([Arg(name, t)], [], [], canonicals));
      MakeFilterCandidates(pf) == UndefinedFilters(name, OperatorsFor(t))
  {
    var args := [Arg(name, t)];
    assert args[1..] == [];
  }

  // ---------------------------------------------------------------------
  // Slots and the slot menu
  // ---------------------------------------------------------------------

  datatype Slot = TriggerSlot | QuerySlot | ActionSlot

  function SlotRank(s: Slot): nat {
    match s
    case TriggerSlot => 0
    case QuerySlot => 1
    case ActionSlot => 2
  }

  function SlotOf(rule: PermissionRule, s: Slot): PermissionFunction {
    match s
    case TriggerSlot => rule.trigger
    case QuerySlot => rule.query
    case ActionSlot => rule.action
  }

  /** The rule with one slot replaced. */
  function WithSlot(rule: PermissionRule, s: Slot, pf: PermissionFunction): (r: PermissionRule)
    ensures SlotOf(r, s) == pf
    ensures forall t :: t != s ==> SlotOf(r, t) == SlotOf(rule, t)
    ensures r.principal == rule.principal
  {
    match s
    case TriggerSlot => rule.(trigger := pf)
    case QuerySlot => rule.(query := pf)
    case ActionSlot => rule.(action := pf)
  }

  /** A slot the menu offers: it has at least one candidate. */
  predicate Offered(rule: PermissionRule, s: Slot) {
    |MakeFilterCandidates(SlotOf(rule, s))| > 0
  }

  datatype MenuEntry = SlotEntry(slot: Slot) | DoneEntry | BackEntry

  /** Whether the slot is one of those flagged. */
  function Flag(s: Slot, t: bool, q: bool, a: bool): bool {
    match s
    case TriggerSlot => t
    case QuerySlot => q
    case ActionSlot => a
  }

  /** The menu entries for the flagged slots in slot order, then Done and
      Back. */
  function MenuOf(t: bool, q: bool, a: bool): (m: seq<MenuEntry>)
    ensures 2 <= |m| <= 5
    ensures m[|m| - 2] == DoneEntry && m[|m| - 1] == BackEntry
    ensures forall i :: 0 <= i < |m| - 2 ==> m[i].SlotEntry? && Flag(m[i].slot, t, q, a)
    ensures (SlotEntry(TriggerSlot) in m <==> t) && (SlotEntry(QuerySlot) in m <==> q)
    ensures SlotEntry(ActionSlot) in m <==> a
    ensures forall i :: 0 <= i < |m| - 3 ==> SlotRank(m[i].slot) < SlotRank(m[i + 1].slot)
  {
    var m := (if t then [SlotEntry(TriggerSlot)] else [])
      + (if q then [SlotEntry(QuerySlot)] else [])
      + (if a then [SlotEntry(ActionSlot)] else [])
      + [DoneEntry, BackEntry];
    assert SlotEntry(TriggerSlot) in m <==> t;
    assert SlotEntry(QuerySlot) in m <==> q;
    assert SlotEntry(ActionSlot) in m <==> a;
    m
  }

  /** Flagging the offered slots flags exactly them, and only specified
      slots are offered. */
  lemma FlagsAreOffered(rule: PermissionRule)
    ensures forall s :: Flag(s, Offered(rule, TriggerSlot), Offered(rule, QuerySlot),
                             Offered(rule, ActionSlot)) == Offered(rule, s)
    ensures forall s :: Offered(rule, s) ==> SlotOf(rule, s).Specified?
  {
    forall s ensures Flag(s, Offered(rule, TriggerSlot), Offered(rule, QuerySlot),
                          Offered(rule, ActionSlot)) == Offered(rule, s) {
      match s
      case TriggerSlot =>
      case QuerySlot =>
      case ActionSlot =>
    }
  }

  /** The slot menu: "When", "Get", "Do" for the offered slots, in that
      order, then "Done" and "Back". Only specified slots are offered. */
  function Menu(rule: PermissionRule): (m: seq<MenuEntry>)
    ensures 2 <= |m| <= 5
    ensures m[|m| - 2] == DoneEntry && m[|m| - 1] == BackEntry
    ensures forall i :: 0 <= i < |m| - 2 ==>
      m[i].SlotEntry? && Offered(rule, m[i].slot) && SlotOf(rule, m[i].slot).Specified?
    ensures SlotEntry(TriggerSlot) in m <==> Offered(rule, TriggerSlot)
    ensures SlotEntry(QuerySlot) in m <==> Offered(rule, QuerySlot)
    ensures SlotEntry(ActionSlot) in m <==> Offered(rule, ActionSlot)
    ensures forall i :: 0 <= i < |m| - 3 ==> SlotRank(m[i].slot) < SlotRank(m[i + 1].slot)
  {
    FlagsAreOffered(rule);
    MenuOf(Offered(rule, TriggerSlot), Offered(rule, QuerySlot), Offered(rule, ActionSlot))
  }

  /** The slot the `i`-th menu entry stands for. */
  function MenuSlot(rule: PermissionRule, i: nat): (s: Slot)
    requires i < |Menu(rule)| - 2
    ensures SlotOf(rule, s).Specified?
  {
    Menu(rule)[i].slot
  }

  // ---------------------------------------------------------------------
  // Filter buttons
  // ---------------------------------------------------------------------

  /** The operator word the button payload uses. */
  function ButtonOperator(op: string): string {
    if op == "=" then "is"
    else if op == "=~" then "contains"
    else if op == "contains" then "has"
    else op
  }

  /** The operators that can appear as candidates. */
  const CandidateOperators: set<string> := {"=", "!=", "=~", "<", ">", ">=", "<=", "contains"}

  /** On the candidate operators the payload words stay distinct, so the
      payload identifies the candidate's operator. */
  lemma ButtonOperatorInjective(a: string, b: string)
    requires a in CandidateOperators && b in CandidateOperators
    requires ButtonOperator(a) == ButtonOperator(b)
    ensures a == b
  {
  }

  /** The payload type: the literal "Measure" with the unit for measures,
      otherwise the type itself. */
  datatype PayloadType = MeasurePayload(unit: string) | TypePayload(ty: Type)

  /** One filter button: its text and the payload it sends back. */
  datatype FilterButton = FilterButton(text: string, name: string, op: string, valueType: PayloadType)

  function ElemOf(t: Type): Option<Type> {
    if t.ArrayType? then Some(t.elem) else None
  }

  /** `schema.inReq[name] || schema.out[name]`. */
  function ButtonParamType(schema: Schema, name: string): Option<Type> {
    OrElse(Lookup(schema.inReq, name), Lookup(schema.out, name))
  }

  function PayloadOf(t: Type): PayloadType {
    if t.MeasureType? then MeasurePayload(t.unit) else TypePayload(t)
  }

  /** The type of a filter's value given its parameter's type `ptype`: the
      element type for `contains`, otherwise `ptype` itself (`undefined`
      when either is missing). */
  function OperandType(ptype: Option<Type>, op: string): Option<Type> {
    if op != "contains" then ptype
    else if ptype.None? then None
    else ElemOf(ptype.value)
  }

  /** The button for one candidate; reading the element type of a missing
      argument, or `isMeasure` of a missing value type, is a TypeError. */
  function ButtonFor(schema: Schema, f: Filter, describeArg: ValueDescriber): (r: Result<FilterButton>)
    ensures r.Success? ==> r.value.name == f.name && r.value.op == ButtonOperator(f.op)
    ensures r.Success? ==> DescribeFilter(schema, f, describeArg) == Success(r.value.text)
  {
    var ptype := ButtonParamType(schema, f.name);
    var vtype := OperandType(ptype, f.op);
    if f.op == "contains" && ptype.None? then Failure(TypeError("Cannot read property 'elem' of undefined"))
    else if vtype.None? then Failure(TypeError("Cannot read property 'isMeasure' of undefined"))
    else match DescribeFilter(schema, f, describeArg)
      case Failure(e) => Failure(e)
      case Success(text) => Success(FilterButton(text, f.name, ButtonOperator(f.op), PayloadOf(vtype.value)))
  }

  /** A button exists exactly when the value type and the description can
      be computed; its payload carries the value type (the element type for
      `contains`, and "Measure" with the unit for measures). Otherwise the
      failure is a TypeError, not a cancellation. */
  lemma ButtonPayload(schema: Schema, f: Filter, describeArg: ValueDescriber)
    ensures var r := ButtonFor(schema, f, describeArg);
            var vtype := OperandType(ButtonParamType(schema, f.name), f.op);
            && (r.Success? <==> vtype.Some? && DescribeFilter(schema, f, describeArg).Success?)
            && (r.Success? ==> r.value.valueType == PayloadOf(vtype.value))
            && (vtype.None? ==> r.Failure? && !IsCancelled(r.error))
  {
  }

  /** The buttons for a list of candidates, in order; the first failure
      aborts. */
  function FilterButtons(schema: Schema, fs: seq<Filter>, describeArg: ValueDescriber)
    : (r: Result<seq<FilterButton>>)
    ensures r.Success? ==> |r.value| == |fs|
    ensures r.Success? ==> forall i :: 0 <= i < |fs| ==> ButtonFor(schema, fs[i], describeArg) == Success(r.value[i])
    ensures r.Success? <==> forall i :: 0 <= i < |fs| ==> ButtonFor(schema, fs[i], describeArg).Success?
  {
    AllValues(seq(|fs|, i requires 0 <= i < |fs| => ButtonFor(schema, fs[i], describeArg)))
  }

  /** Argument names are unique across the required inputs and the outputs,
      as they are in a ThingTalk function signature. */
  predicate DistinctNames(args: seq<Arg>) {
    forall i, j :: 0 <= i < j < |args| ==> args[i].name != args[j].name
  }

  predicate WellFormedSchema(schema: Schema) {
    DistinctNames(schema.inReq + schema.out)
  }

  /** In a list with distinct names, looking up an argument's name finds
      that argument's type. */
  lemma LookupDistinct(args: seq<Arg>, k: int)
    requires DistinctNames(args) && 0 <= k < |args|
    ensures Lookup(args, args[k].name) == Some(args[k].ty)
  {
    var t := Lookup(args, args[k].name).value;
    var i :| 0 <= i < |args| && args[i] == Arg(args[k].name, t);
  }

  /** Distinct names across two lists: each list has distinct names, and
      no name is in both. */
  lemma DistinctParts(xs: seq<Arg>, ys: seq<Arg>)
    requires DistinctNames(xs + ys)
    ensures DistinctNames(xs) && DistinctNames(ys)
    ensures forall i, j :: 0 <= i < |xs| && 0 <= j < |ys| ==> xs[i].name != ys[j].name
  {
    var all := xs + ys;
    forall i, j | 0 <= i < j < |xs| ensures xs[i].name != xs[j].name {
      assert xs[i] == all[i] && xs[j] == all[j];
    }
    forall i, j | 0 <= i < j < |ys| ensures ys[i].name != ys[j].name {
      assert ys[i] == all[|xs| + i] && ys[j] == all[|xs| + j];
    }
    forall i, j | 0 <= i < |xs| && 0 <= j < |ys| ensures xs[i].name != ys[j].name {
      assert xs[i] == all[i] && ys[j] == all[|xs| + j];
    }
  }

  /** In a schema with distinct names, looking up the name of any argument
      finds that argument's own type. */
  lemma ButtonParamTypeFindsArg(schema: Schema, a: Arg)
    requires WellFormedSchema(schema)
    requires a in schema.inReq + schema.out
    ensures ButtonParamType(schema, a.name) == Some(a.ty)
  {
    DistinctParts(schema.inReq, schema.out);
    if a in schema.inReq {
      var k :| 0 <= k < |schema.inReq| && schema.inReq[k] == a;
      LookupDistinct(schema.inReq, k);
    } else {
      var k :| 0 <= k < |schema.out| && schema.out[k] == a;
      LookupDistinct(schema.out, k);
      assert Lookup(schema.inReq, a.name).None?;
    }
  }

  /** With a well-formed schema, the button of any candidate can be built. */
  lemma CandidateButtonExists(pf: PermissionFunction, f: Filter, describeArg: ValueDescriber)
    requires pf.Specified? && WellFormedSchema(pf.schema)
    requires f in MakeFilterCandidates(pf)
    ensures ButtonFor(pf.schema, f, describeArg).Success?
  {
    CandidateTable(pf);
    var a :| a in pf.schema.inReq + pf.schema.out && a.name == f.name && f.op in OperatorsFor(a.ty);
    ButtonParamTypeFindsArg(pf.schema, a);
    CandidatesAreDescribable(pf, f, describeArg);
    assert f.op == "contains" ==> a.ty.ArrayType? by {
      match a.ty
      case StringType =>
      case NumberType =>
      case MeasureType(_) =>
      case ArrayType(_) =>
      case OtherType(_) =>
    }
  }

  /** With a well-formed schema the buttons of a specified slot can always
      be built: one per candidate. */
  lemma CandidateButtonsExist(pf: PermissionFunction, describeArg: ValueDescriber)
    requires pf.Specified? && WellFormedSchema(pf.schema)
    ensures FilterButtons(pf.schema, MakeFilterCandidates(pf), describeArg).Success?
  {
    var fs := MakeFilterCandidates(pf);
    forall i | 0 <= i < |fs|
      ensures ButtonFor(pf.schema, fs[i], describeArg).Success?
    {
      CandidateButtonExists(pf, fs[i], describeArg);
    }
  }

  // ---------------------------------------------------------------------
  // The refinement loop
  // ---------------------------------------------------------------------

  /** What the refinement dialog shows. */
  datatype RefineEvent =
    | MenuShown(entries: seq<MenuEntry>)
    | FilterButtonsShown(buttons: seq<FilterButton>)
    | SlotFillAsked(valueType: Option<Type>)

  /** How `addFilter` ends: the rule it returns (`None` for `null`) and the
      working rule as left behind, since the loop edits it in place. */
  datatype Refined = Refined(result: Option<PermissionRule>, working: PermissionRule)

  /** The outcome of the filter step of one iteration: leave the loop with a
      result, or continue with the narrowed rule. */
  datatype StepResult = Leave(result: Option<PermissionRule>) | Narrowed(rule: PermissionRule)

  /** `prim.filter = optimizeFilter(And([prim.filter, predicate]))` on the
      chosen slot. */
  function Conjoin(rule: PermissionRule, s: Slot, condition: BoolExpr, optimize: Simplifier)
    : (r: PermissionRule)
    requires SlotOf(rule, s).Specified?
    ensures SlotOf(r, s) == SlotOf(rule, s).(filter := optimize(And([SlotOf(rule, s).filter, condition])))
    ensures forall t :: t != s ==> SlotOf(r, t) == SlotOf(rule, t)
    ensures r.principal == rule.principal
  {
    var prim := SlotOf(rule, s);
    WithSlot(rule, s, prim.(filter := optimize(And([prim.filter, condition]))))
  }

  /** Two rules that differ at most in their slots' filters. */
  predicate SameShape(a: PermissionRule, b: PermissionRule) {
    && a.principal == b.principal
    && SameSlotShape(a.trigger, b.trigger)
    && SameSlotShape(a.query, b.query)
    && SameSlotShape(a.action, b.action)
  }

  predicate SameSlotShape(p: PermissionFunction, q: PermissionFunction) {
    && p.Builtin? == q.Builtin?
    && (p.Specified? ==>
          p.kind == q.kind && p.channel == q.channel && p.outParams == q.outParams && p.schema == q.schema)
  }

  /** Conjoining a predicate into one slot changes nothing but filters. */
  lemma ConjoinSameShape(rule: PermissionRule, s: Slot, condition: BoolExpr, optimize: Simplifier)
    requires SlotOf(rule, s).Specified?
    ensures SameShape(Conjoin(rule, s, condition, optimize), rule)
  {
    var r := Conjoin(rule, s, condition, optimize);
    assert SlotOf(r, TriggerSlot) == r.trigger && SlotOf(r, QuerySlot) == r.query;
    assert SlotOf(r, ActionSlot) == r.action;
  }

  /** Slots of the same shape have the same candidates. */
  lemma SameSlotCandidates(p: PermissionFunction, q: PermissionFunction)
    requires SameSlotShape(p, q)
    ensures MakeFilterCandidates(p) == MakeFilterCandidates(q)
  {
  }

  /** Rules of the same shape have the same candidates and hence the same
      menu: adding filters never changes what is offered. */
  lemma SameShapeSameMenu(a: PermissionRule, b: PermissionRule)
    requires SameShape(a, b)
    ensures Menu(a) == Menu(b)
  {
    SameSlotCandidates(a.trigger, b.trigger);
    SameSlotCandidates(a.query, b.query);
    SameSlotCandidates(a.action, b.action);
    assert Offered(a, TriggerSlot) == Offered(b, TriggerSlot);
    assert Offered(a, QuerySlot) == Offered(b, QuerySlot);
    assert Offered(a, ActionSlot) == Offered(b, ActionSlot);
  }

  /** The simplifier's operand when the answer carries no predicate (a yes,
      no or maybe answer) is undefined; that is modelled as a TypeError. */
  const NoPredicate: JsError := TypeError("Cannot read property 'isTrue' of undefined")

  /** A rule obtained from `rule` by conjoining some predicate into slot `s`. */
  ghost predicate NarrowedFrom(next: PermissionRule, rule: PermissionRule, s: Slot, optimize: Simplifier)
    requires SlotOf(rule, s).Specified?
  {
    exists p :: next == Conjoin(rule, s, p, optimize)
  }

  /** `schema.inReq[name] || schema.inOpt[name] || schema.out[name]`: unlike
      the buttons, the answer's argument may also be an optional input. */
  function AnswerParamType(schema: Schema, name: string): Option<Type> {
    OrElse(OrElse(Lookup(schema.inReq, name), Lookup(schema.inOpt, name)), Lookup(schema.out, name))
  }

  /** Slot-fill the undefined value of an answered filter, typed by the
      parameter's type (its element type for `contains`), then conjoin. */
  function FillAndConjoin(rule: PermissionRule, s: Slot, f: Filter, script: seq<Response>,
                          optimize: Simplifier)
    : (r: Flow<StepResult, RefineEvent>)
    requires SlotOf(rule, s).Specified?
    ensures !r.Suspended? ==> |r.rest| <= |script| && r.rest == script[|script| - |r.rest|..]
    ensures r.Finished? ==> r.value.Narrowed? && NarrowedFrom(r.value.rule, rule, s, optimize)
  {
    var ptype := AnswerParamType(SlotOf(rule, s).schema, f.name);
    if f.op == "contains" && ptype.None? then
      Raised(TypeError("Cannot read property 'elem' of undefined"), script, [])
    else
      var asked := [SlotFillAsked(OperandType(ptype, f.op))];
      match Await(script, AsValue)
      case Starved => Suspended(asked)
      case Cancel(rest) => Raised(Cancelled, rest, asked)
      case Got(v, rest) => Finished(Narrowed(Conjoin(rule, s, Atom(f.(value := v)), optimize)), rest, asked)
  }

  /** What the filter step does with the permission response it got. */
  function ApplyAnswer(rule: PermissionRule, s: Slot, answer: PermissionAnswer,
                       script: seq<Response>, optimize: Simplifier)
    : (r: Flow<StepResult, RefineEvent>)
    requires SlotOf(rule, s).Specified?
    ensures !r.Suspended? ==> |r.rest| <= |script| && r.rest == script[|script| - |r.rest|..]
    ensures r.Finished? && r.value.Narrowed? ==> NarrowedFrom(r.value.rule, rule, s, optimize)
    ensures r.Finished? && r.value.Leave? && r.value.result.Some? ==>
      answer == RuleAnswer(r.value.result.value)
  {
    match answer
    case Back => Finished(Leave(None), script, [])
    case RuleAnswer(given) => Finished(Leave(Some(given)), script, [])
    case PredicateAnswer(p) => Finished(Narrowed(Conjoin(rule, s, p, optimize)), script, [])
    case FilterAnswer(f) =>
      if f.value.Undefined? then FillAndConjoin(rule, s, f, script, optimize)
      else Finished(Narrowed(Conjoin(rule, s, Atom(f), optimize)), script, [])
    case Yes => Raised(NoPredicate, script, [])
    case No => Raised(NoPredicate, script, [])
    case Maybe => Raised(NoPredicate, script, [])
  }

  /** Answering the value question completes the answered filter with that
      value and conjoins it into the slot; the question was asked with the
      parameter's type (its element type for `contains`), looked up among
      the required inputs, then the optional inputs, then the outputs. */
  lemma FillAndConjoinValue(rule: PermissionRule, s: Slot, f: Filter, v: Value, tail: seq<Response>,
                            optimize: Simplifier)
    requires SlotOf(rule, s).Specified?
    requires f.op == "contains" ==> AnswerParamType(SlotOf(rule, s).schema, f.name).Some?
    ensures FillAndConjoin(rule, s, f, [ValueReply(v)] + tail, optimize)
         == Finished(Narrowed(Conjoin(rule, s, Atom(f.(value := v)), optimize)), tail,
                     [SlotFillAsked(OperandType(AnswerParamType(SlotOf(rule, s).schema, f.name), f.op))])
  {
    assert ([ValueReply(v)] + tail)[1..] == tail;
  }

  /** A `contains` filter on a parameter the schema does not have fails
      before anything is asked. */
  lemma FillAndConjoinMissingParam(rule: PermissionRule, s: Slot, f: Filter, script: seq<Response>,
                                   optimize: Simplifier)
    requires SlotOf(rule, s).Specified?
    requires f.op == "contains" && AnswerParamType(SlotOf(rule, s).schema, f.name).None?
    ensures var r := FillAndConjoin(rule, s, f, script, optimize);
            r.Raised? && !IsCancelled(r.error) && r.rest == script && r.trace == []
  {
  }

  /** A filter answer whose value is already given is conjoined as it is,
      without asking anything. */
  lemma DefinedFilterConjoined(rule: PermissionRule, s: Slot, f: Filter, script: seq<Response>,
                               optimize: Simplifier)
    requires SlotOf(rule, s).Specified? && !f.value.Undefined?
    ensures Returns(ApplyAnswer(rule, s, FilterAnswer(f), script, optimize),
                    Narrowed(Conjoin(rule, s, Atom(f), optimize)), script)
    ensures ApplyAnswer(rule, s, FilterAnswer(f), script, optimize).trace == []
  {
  }

  /** A filter answer without a value is completed by the next value the
      user gives, and the completed filter is conjoined. */
  lemma UndefinedFilterFilled(rule: PermissionRule, s: Slot, f: Filter, v: Value, tail: seq<Response>,
                              optimize: Simplifier)
    requires SlotOf(rule, s).Specified? && f.value.Undefined?
    requires f.op == "contains" ==> AnswerParamType(SlotOf(rule, s).schema, f.name).Some?
    ensures Returns(ApplyAnswer(rule, s, FilterAnswer(f), [ValueReply(v)] + tail, optimize),
                    Narrowed(Conjoin(rule, s, Atom(f.(value := v)), optimize)), tail)
  {
    FillAndConjoinValue(rule, s, f, v, tail, optimize);
  }

  /** The filter step for the chosen slot: show the slot's filter buttons
      and a Back button, wait for a permission response, and act on it. */
  function FilterStep(rule: PermissionRule, s: Slot, script: seq<Response>,
                      optimize: Simplifier, describeArg: ValueDescriber)
    : (r: Flow<StepResult, RefineEvent>)
    requires SlotOf(rule, s).Specified?
    ensures r.Finished? ==> |r.rest| < |script|
    ensures !r.Suspended? ==> |r.rest| <= |script| && r.rest == script[|script| - |r.rest|..]
    ensures r.Finished? && r.value.Narrowed? ==> NarrowedFrom(r.value.rule, rule, s, optimize)
    ensures r.Finished? && r.value.Leave? && r.value.result.Some? ==>
      PermissionReply(RuleAnswer(r.value.result.value)) in script
  {
    var prim := SlotOf(rule, s);
    match FilterButtons(prim.schema, MakeFilterCandidates(prim), describeArg)
    case Failure(e) => Raised(e, script, [])
    case Success(buttons) => Prefix([FilterButtonsShown(buttons)], AnswerStep(rule, s, script, optimize))
  }

  /** Wait for the permission response of the filter step and act on it. */
  function AnswerStep(rule: PermissionRule, s: Slot, script: seq<Response>, optimize: Simplifier)
    : (r: Flow<StepResult, RefineEvent>)
    requires SlotOf(rule, s).Specified?
    ensures r.Finished? ==> |r.rest| < |script|
    ensures !r.Suspended? ==> |r.rest| <= |script| && r.rest == script[|script| - |r.rest|..]
    ensures r.Finished? && r.value.Narrowed? ==> NarrowedFrom(r.value.rule, rule, s, optimize)
    ensures r.Finished? && r.value.Leave? && r.value.result.Some? ==>
      PermissionReply(RuleAnswer(r.value.result.value)) in script
  {
    match Await(script, AsPermissionAnswer)
    case Starved => Suspended([])
    case Cancel(rest) => Raised(Cancelled, rest, [])
    case Got(answer, rest) =>
      assert script[|script| - |rest| - 1] == PermissionReply(answer);
      var f := ApplyAnswer(rule, s, answer, rest, optimize);
      ResumedSuffix(script, rest, f);
      f
  }

  /** `addFilter`: show the menu; Done returns the working rule, Back
      returns `null`; a slot runs the filter step, which may leave the loop
      or narrow the working rule and go round again. */
  function AddFilter(rule: PermissionRule, script: seq<Response>,
                     optimize: Simplifier, describeArg: ValueDescriber)
    : (r: Flow<Refined, RefineEvent>)
    ensures r.Finished? ==> |r.rest| < |script|
    ensures !r.Suspended? ==> |r.rest| <= |script|
    ensures r.Finished? ==> SameShape(r.value.working, rule)
    ensures |r.trace| >= 1 && r.trace[0] == MenuShown(Menu(rule))
    decreases |script|
  {
    var menu := Menu(rule);
    var shown := [MenuShown(menu)];
    match Await(script, AsChoice(|menu|))
    case Starved => Suspended(shown)
    case Cancel(rest) => Raised(Cancelled, rest, shown)
    case Got(choice, rest) =>
      if choice == |menu| - 2 then Finished(Refined(Some(rule), rule), rest, shown)
      else if choice == |menu| - 1 then Finished(Refined(None, rule), rest, shown)
      else Prefix(shown, SlotRound(rule, MenuSlot(rule, choice), rest, optimize, describeArg))
  }

  /** The rest of one round of `addFilter` once a slot is chosen: its filter
      step, then either the way out or the next round on the narrowed rule. */
  function SlotRound(rule: PermissionRule, s: Slot, script: seq<Response>,
                     optimize: Simplifier, describeArg: ValueDescriber)
    : (r: Flow<Refined, RefineEvent>)
    requires SlotOf(rule, s).Specified?
    ensures r.Finished? ==> |r.rest| < |script|
    ensures !r.Suspended? ==> |r.rest| <= |script|
    ensures r.Finished? ==> SameShape(r.value.working, rule)
    decreases |script|
  {
    var step := FilterStep(rule, s, script, optimize, describeArg);
    if !step.Finished? then ForwardStep(step)
    else
      match step.value
      case Leave(result) => Finished(Refined(result, rule), step.rest, step.trace)
      case Narrowed(next) =>
        NarrowedSameShape(next, rule, s, optimize);
        Prefix(step.trace, AddFilter(next, step.rest, optimize, describeArg))
  }

  lemma NarrowedSameShape(next: PermissionRule, rule: PermissionRule, s: Slot, optimize: Simplifier)
    requires SlotOf(rule, s).Specified?
    requires NarrowedFrom(next, rule, s, optimize)
    ensures SameShape(next, rule)
  {
    var p :| next == Conjoin(rule, s, p, optimize);
    ConjoinSameShape(rule, s, p, optimize);
  }

  /** A filter step that did not finish, passed on unchanged. */
  function ForwardStep(step: Flow<StepResult, RefineEvent>): (r: Flow<Refined, RefineEvent>)
    requires !step.Finished?
    ensures !r.Finished? && r.trace == step.trace
    ensures r.Raised? == step.Raised?
    ensures step.Raised? ==> r.error == step.error && r.rest == step.rest
  {
    match step
    case Raised(e, rest, tr) => Raised(e, rest, tr)
    case Suspended(tr) => Suspended(tr)
  }

  // ---------------------------------------------------------------------
  // What particular answers do
  // ---------------------------------------------------------------------

  /** Done at the menu returns the working rule as it stands. */
  lemma DoneReturnsRule(rule: PermissionRule, tail: seq<Response>,
                        optimize: Simplifier, describeArg: ValueDescriber)
    ensures AddFilter(rule, [ChoiceReply(|Menu(rule)| - 2)] + tail, optimize, describeArg)
         == Finished(Refined(Some(rule), rule), tail, [MenuShown(Menu(rule))])
  {
    var script := [ChoiceReply(|Menu(rule)| - 2)] + tail;
    assert script[1..] == tail;
  }

  /** Back at the menu returns `null` and leaves the working rule alone. */
  lemma BackReturnsNothing(rule: PermissionRule, tail: seq<Response>,
                           optimize: Simplifier, describeArg: ValueDescriber)
    ensures AddFilter(rule, [ChoiceReply(|Menu(rule)| - 1)] + tail, optimize, describeArg)
         == Finished(Refined(None, rule), tail, [MenuShown(Menu(rule))])
  {
    var script := [ChoiceReply(|Menu(rule)| - 1)] + tail;
    assert script[1..] == tail;
  }

  /** The filter step of a slot with a well-formed signature: its buttons
      can all be built, so it waits for a permission response. */
  lemma FilterStepAnswered(rule: PermissionRule, s: Slot, answer: PermissionAnswer,
                           tail: seq<Response>, optimize: Simplifier, describeArg: ValueDescriber)
    requires SlotOf(rule, s).Specified? && WellFormedSchema(SlotOf(rule, s).schema)
    ensures FilterButtons(SlotOf(rule, s).schema, MakeFilterCandidates(SlotOf(rule, s)), describeArg).Success?
    ensures FilterStep(rule, s, [PermissionReply(answer)] + tail, optimize, describeArg)
         == Prefix([FilterButtonsShown(FilterButtons(SlotOf(rule, s).schema,
                      MakeFilterCandidates(SlotOf(rule, s)), describeArg).value)],
                   ApplyAnswer(rule, s, answer, tail, optimize))
  {
    CandidateButtonsExist(SlotOf(rule, s), describeArg);
    var script := [PermissionReply(answer)] + tail;
    assert script[1..] == tail;
    assert Await(script, AsPermissionAnswer) == Got(answer, tail);
    assert AnswerStep(rule, s, script, optimize) == ApplyAnswer(rule, s, answer, tail, optimize);
  }

  /** Choosing a slot at the menu runs one round on that slot. */
  lemma SlotChosen(rule: PermissionRule, i: nat, tail: seq<Response>,
                   optimize: Simplifier, describeArg: ValueDescriber)
    requires i < |Menu(rule)| - 2
    ensures AddFilter(rule, [ChoiceReply(i)] + tail, optimize, describeArg)
         == Prefix([MenuShown(Menu(rule))], SlotRound(rule, MenuSlot(rule, i), tail, optimize, describeArg))
  {
    var script := [ChoiceReply(i)] + tail;
    assert script[1..] == tail;
    assert AsChoice(|Menu(rule)|)(script[0]) == Some(i);
    assert Await(script, AsChoice(|Menu(rule)|)) == Got(i, tail);
  }

  /** A round whose filter step is answered with Back or an explicit rule
      leaves the loop with what the answer says. */
  lemma RoundLeaves(rule: PermissionRule, s: Slot, answer: PermissionAnswer, tail: seq<Response>,
                    optimize: Simplifier, describeArg: ValueDescriber)
    requires SlotOf(rule, s).Specified? && WellFormedSchema(SlotOf(rule, s).schema)
    requires answer.Back? || answer.RuleAnswer?
    ensures var r := SlotRound(rule, s, [PermissionReply(answer)] + tail, optimize, describeArg);
            r.Finished? && r.rest == tail
            && r.value == Refined(if answer.Back? then None else Some(answer.rule), rule)
  {
    FilterStepAnswered(rule, s, answer, tail, optimize, describeArg);
  }

  /** A round whose filter step is answered with a predicate goes round
      again on the narrowed rule. */
  lemma RoundNarrows(rule: PermissionRule, s: Slot, p: BoolExpr, tail: seq<Response>,
                     optimize: Simplifier, describeArg: ValueDescriber)
    requires SlotOf(rule, s).Specified? && WellFormedSchema(SlotOf(rule, s).schema)
    ensures var r := SlotRound(rule, s, [PermissionReply(PredicateAnswer(p))] + tail, optimize, describeArg);
            var again := AddFilter(Conjoin(rule, s, p, optimize), tail, optimize, describeArg);
            SameEnd(r, again)
  {
    FilterStepNarrows(rule, s, p, tail, optimize, describeArg);
  }

  /** The filter step narrows the slot by a predicate answer. */
  lemma FilterStepNarrows(rule: PermissionRule, s: Slot, p: BoolExpr, tail: seq<Response>,
                          optimize: Simplifier, describeArg: ValueDescriber)
    requires SlotOf(rule, s).Specified? && WellFormedSchema(SlotOf(rule, s).schema)
    ensures Returns(FilterStep(rule, s, [PermissionReply(PredicateAnswer(p))] + tail, optimize, describeArg),
                    Narrowed(Conjoin(rule, s, p, optimize)), tail)
  {
    FilterStepAnswered(rule, s, PredicateAnswer(p), tail, optimize, describeArg);
    assert ApplyAnswer(rule, s, PredicateAnswer(p), tail, optimize)
        == Finished(Narrowed(Conjoin(rule, s, p, optimize)), tail, []);
  }

  /** An explicit permission rule given at the filter step is returned as
      it is. */
  lemma ExplicitRuleIsReturned(rule: PermissionRule, i: nat, given: PermissionRule,
                               tail: seq<Response>, optimize: Simplifier,
                               describeArg: ValueDescriber)
    requires i < |Menu(rule)| - 2
    requires WellFormedSchema(SlotOf(rule, MenuSlot(rule, i)).schema)
    ensures var r := AddFilter(rule, [ChoiceReply(i)] + ([PermissionReply(RuleAnswer(given))] + tail),
                               optimize, describeArg);
            r.Finished? && r.value == Refined(Some(given), rule) && r.rest == tail
  {
    var rest := [PermissionReply(RuleAnswer(given))] + tail;
    SlotChosen(rule, i, rest, optimize, describeArg);
    RoundLeaves(rule, MenuSlot(rule, i), RuleAnswer(given), tail, optimize, describeArg);
    var round := SlotRound(rule, MenuSlot(rule, i), rest, optimize, describeArg);
    assert round.Finished? && round.value == Refined(Some(given), rule) && round.rest == tail;
  }

  /** Back at the filter step leaves the loop with `null`. */
  lemma BackAtFilterStep(rule: PermissionRule, i: nat, tail: seq<Response>,
                         optimize: Simplifier, describeArg: ValueDescriber)
    requires i < |Menu(rule)| - 2
    requires WellFormedSchema(SlotOf(rule, MenuSlot(rule, i)).schema)
    ensures var r := AddFilter(rule, [ChoiceReply(i)] + ([PermissionReply(Back)] + tail),
                               optimize, describeArg);
            r.Finished? && r.value == Refined(None, rule) && r.rest == tail
  {
    var rest := [PermissionReply(Back)] + tail;
    SlotChosen(rule, i, rest, optimize, describeArg);
    RoundLeaves(rule, MenuSlot(rule, i), Back, tail, optimize, describeArg);
    var round := SlotRound(rule, MenuSlot(rule, i), rest, optimize, describeArg);
    assert round.Finished? && round.value == Refined(None, rule) && round.rest == tail;
  }

  /** A predicate answer at the filter step of the chosen slot goes round
      again on the rule narrowed by it. */
  lemma PredicateGoesRoundAgain(rule: PermissionRule, i: nat, p: BoolExpr, after: seq<Response>,
                                optimize: Simplifier, describeArg: ValueDescriber)
    requires i < |Menu(rule)| - 2
    requires WellFormedSchema(SlotOf(rule, MenuSlot(rule, i)).schema)
    ensures var r := AddFilter(rule, [ChoiceReply(i)] + ([PermissionReply(PredicateAnswer(p))] + after),
                               optimize, describeArg);
            var again := AddFilter(Conjoin(rule, MenuSlot(rule, i), p, optimize), after,
                                   optimize, describeArg);
            SameEnd(r, again)
  {
    var rest := [PermissionReply(PredicateAnswer(p))] + after;
    SlotChosen(rule, i, rest, optimize, describeArg);
    RoundNarrows(rule, MenuSlot(rule, i), p, after, optimize, describeArg);
  }

  /** A predicate answer narrows the chosen slot and goes round again;
      leaving by Back then returns `null` but the working rule keeps the
      predicate, while leaving by Done returns the narrowed rule. */
  lemma PredicateThenLeave(rule: PermissionRule, i: nat, p: BoolExpr, done: bool,
                           tail: seq<Response>, optimize: Simplifier,
                           describeArg: ValueDescriber)
    requires i < |Menu(rule)| - 2
    requires WellFormedSchema(SlotOf(rule, MenuSlot(rule, i)).schema)
    ensures var next := Conjoin(rule, MenuSlot(rule, i), p, optimize);
            var leave := if done then |Menu(rule)| - 2 else |Menu(rule)| - 1;
            var r := AddFilter(rule, [ChoiceReply(i)] + ([PermissionReply(PredicateAnswer(p))]
                                      + ([ChoiceReply(leave)] + tail)), optimize, describeArg);
            Returns(r, Refined(if done then Some(next) else None, next), tail)
  {
    var next := Conjoin(rule, MenuSlot(rule, i), p, optimize);
    var leave := if done then |Menu(rule)| - 2 else |Menu(rule)| - 1;
    ConjoinSameShape(rule, MenuSlot(rule, i), p, optimize);
    if done {
      DoneAtSameShape(rule, next, tail, optimize, describeArg);
    } else {
      BackAtSameShape(rule, next, tail, optimize, describeArg);
    }
    var again := AddFilter(next, [ChoiceReply(leave)] + tail, optimize, describeArg);
    assert again.Finished? && again.rest == tail
        && again.value == Refined(if done then Some(next) else None, next);
    PredicateGoesRoundAgain(rule, i, p, [ChoiceReply(leave)] + tail, optimize, describeArg);
  }

  /** Done at the menu of a rule of the same shape, whose menu is the
      original rule's, returns that rule. */
  lemma DoneAtSameShape(rule: PermissionRule, next: PermissionRule, tail: seq<Response>,
                        optimize: Simplifier, describeArg: ValueDescriber)
    requires SameShape(next, rule)
    ensures Returns(AddFilter(next, [ChoiceReply(|Menu(rule)| - 2)] + tail, optimize, describeArg),
                    Refined(Some(next), next), tail)
  {
    assert |Menu(next)| == |Menu(rule)| by { SameShapeSameMenu(next, rule); }
    assert [ChoiceReply(|Menu(rule)| - 2)] + tail == [ChoiceReply(|Menu(next)| - 2)] + tail;
    DoneReturnsRule(next, tail, optimize, describeArg);
  }

  /** Back at the menu of a rule of the same shape returns `null`. */
  lemma BackAtSameShape(rule: PermissionRule, next: PermissionRule, tail: seq<Response>,
                        optimize: Simplifier, describeArg: ValueDescriber)
    requires SameShape(next, rule)
    ensures Returns(AddFilter(next, [ChoiceReply(|Menu(rule)| - 1)] + tail, optimize, describeArg),
                    Refined(None, next), tail)
  {
    assert |Menu(next)| == |Menu(rule)| by { SameShapeSameMenu(next, rule); }
    assert [ChoiceReply(|Menu(rule)| - 1)] + tail == [ChoiceReply(|Menu(next)| - 1)] + tail;
    BackReturnsNothing(next, tail, optimize, describeArg);
  }
}
