/** The slice of the ThingTalk program representation that the permission
    dialog inspects. Everything ThingTalk computes on these values
    (simplifying predicates, describing values, type checking) stays outside
    the model and is passed in as a function where it is needed. */
module ThingTalk {
  import opened Js

  /** Parameter types, as far as the filter candidate table distinguishes
      them; `OtherType` covers Boolean, Date, Entity and the rest. */
  datatype Type =
    | StringType
    | NumberType
    | MeasureType(unit: string)
    | ArrayType(elem: Type)
    | OtherType(name: string)

  /** A parameter value: not yet known (`Undefined`), a reference to a
      variable bound by an earlier primitive, or any concrete constant. */
  datatype Value = Undefined | VarRef(name: string) | Const(text: string)

  /** One atomic filter `name op value`; `op` is the operator symbol exactly
      as ThingTalk spells it (`=`, `!=`, `=~`, `contains`, ...). */
  datatype Filter = Filter(name: string, op: string, value: Value)

  /** Boolean predicate trees over filters. */
  datatype BoolExpr =
    | True
    | False
    | And(operands: seq<BoolExpr>)
    | Or(operands: seq<BoolExpr>)
    | Not(negated: BoolExpr)
    | Atom(filter: Filter)

  /** A named, typed argument of a function signature. */
  datatype Arg = Arg(name: string, ty: Type)

  /** The function signature of a primitive: required inputs, optional
      inputs and outputs, each in declaration order, plus the canonical
      (human-readable) name of each argument where there is one. */
  datatype Schema = Schema(inReq: seq<Arg>, inOpt: seq<Arg>, out: seq<Arg>,
                           canonicals: map<string, string>)

  datatype InParam = InParam(name: string, value: Value)

  /** `name` is the variable bound, `value` the output parameter it is bound
      to, as in `v_title := title`. */
  datatype OutParam = OutParam(name: string, value: string)

  /** A trigger, query or non-builtin action invocation. */
  datatype Invocation = Invocation(kind: string, channel: string,
                                   inParams: seq<InParam>, filter: BoolExpr,
                                   outParams: seq<OutParam>, schema: Schema)

  /** An action is either a builtin (`notify`, `return`, ...) or a device
      invocation. Triggers and queries are never builtin. */
  datatype Action = BuiltinAction | DeviceAction(invocation: Invocation)

  datatype Rule = Rule(trigger: Option<Invocation>, queries: seq<Invocation>,
                       actions: seq<Action>)

  datatype Program = Program(rules: seq<Rule>)

  /** The principal a permission rule applies to; `Anybody` is the `null`
      principal. */
  datatype Principal = Anybody | Contact(identity: string, displayName: Option<string>)

  /** One slot of a permission rule: unconstrained, or a specific function
      with a filter on its parameters. */
  datatype PermissionFunction =
    | Builtin
    | Specified(kind: string, channel: string, filter: BoolExpr,
                outParams: seq<OutParam>, schema: Schema)

  datatype PermissionRule = PermissionRule(principal: Principal,
                                           trigger: PermissionFunction,
                                           query: PermissionFunction,
                                           action: PermissionFunction)

  /** `args[name]` on the object the argument list stands for: the type of
      the first argument so named, `undefined` when there is none. */
  function Lookup(args: seq<Arg>, name: string): (r: Option<Type>)
    ensures r.Some? <==> exists i :: 0 <= i < |args| && args[i].name == name
    ensures r.Some? ==> Arg(name, r.value) in args
    decreases |args|
  {
    if |args| == 0 then None
    else if args[0].name == name then Some(args[0].ty)
    else
      var r := Lookup(args[1..], name);
      assert forall i :: 1 <= i < |args| ==> args[i] == args[1..][i - 1];
      r
  }

  /** `a || b` on two possibly-undefined types. */
  function OrElse(a: Option<Type>, b: Option<Type>): Option<Type> {
    if a.Some? then a else b
  }
}
