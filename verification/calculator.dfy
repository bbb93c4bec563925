/** The calculator as an immutable value: a registry of named operations and
    a history of the calls that succeeded. Every transition takes the
    calculator by value and returns the calculator after it. */
module Calculator {
  import opened Results

  /** An operation takes the unpacked parameters and returns a number.
      Operations are total: what an operation does internally is not part
      of the calculator. */
  type Op = seq<int> -> int

  /** A parameter as the caller hands it over: a number, or anything else. */
  datatype Value = Num(n: int) | NonNum

  /** One history item: (execution time, operation name, params, result). */
  datatype Entry = Entry(timestamp: string, name: string, params: seq<int>, result: int)

  datatype Calculator = Calculator(ops: map<string, Op>, history: seq<Entry>)

  /** A new state paired with the value the transition returned. */
  datatype Step<+T> = Step(state: Calculator, output: T)

  /** The argument of add: a dict (or an instance of a dict subclass) of names
      to operations, or anything else, which add refuses. */
  datatype OpArg = Dict(entries: map<string, Op>) | NotDict

  /** The registry invariant: every history item names a registered
      operation, so repeating it cannot miss the registry. */
  ghost predicate Valid(c: Calculator) {
    forall i :: 0 <= i < |c.history| ==> c.history[i].name in c.ops
  }

  predicate IsNumeric(v: Value) {
    v.Num?
  }

  predicate AllNumeric(params: seq<Value>) {
    forall i :: 0 <= i < |params| ==> IsNumeric(params[i])
  }

  /** The numbers carried by an all-numeric parameter list, in order: what
      unpacking the params into the operation call passes. */
  function Nums(params: seq<Value>): (ns: seq<int>)
    requires AllNumeric(params)
    ensures |ns| == |params|
    ensures forall i :: 0 <= i < |params| ==> params[i] == Num(ns[i])
  {
    if |params| == 0 then []
    else [params[0].n] + Nums(params[1..])
  }

  /** create_new_calculator; the registry defaults to the empty one. */
  function Create(ops: map<string, Op> := map[]): (c: Calculator)
    ensures c.ops == ops
    ensures |c.history| == 0
    ensures Valid(c)
  {
    Calculator(ops, [])
  }

  /** perform_operation with the execution time supplied by the caller.
      Parameters are checked before the name is looked up, so a non-numeric
      parameter wins over an unknown name. */
  function Perform(c: Calculator, ts: string, name: string, params: seq<Value>): (r: Result<Step<int>>)
    ensures r == Err(InvalidParams) <==> !AllNumeric(params)
    ensures r == Err(OperationNotFound) <==> AllNumeric(params) && name !in c.ops
    ensures r.Ok? <==> AllNumeric(params) && name in c.ops
    ensures r.Ok? ==>
      && r.value.output == c.ops[name](Nums(params))
      && r.value.state.ops == c.ops
      && |r.value.state.history| == |c.history| + 1
      && r.value.state.history[..|c.history|] == c.history
      && r.value.state.history[|c.history|] == Entry(ts, name, Nums(params), r.value.output)
    ensures Valid(c) && r.Ok? ==> Valid(r.value.state)
  {
    if !AllNumeric(params) then Err(InvalidParams)
    else if name !in c.ops then Err(OperationNotFound)
    else
      var args := Nums(params);
      var total := c.ops[name](args);
      Ok(Step(Calculator(c.ops, c.history + [Entry(ts, name, args, total)]), total))
  }

  /** add_new_operation: every entry of the dict is merged into the
      registry, a colliding name taking the new operation. */
  function Add(c: Calculator, arg: OpArg): (r: Result<Calculator>)
    ensures r == Err(InvalidOperation) <==> arg.NotDict?
    ensures r.Ok? <==> arg.Dict?
    ensures r.Err? ==> r.error == InvalidOperation
    ensures r.Ok? ==>
      && r.value.ops.Keys == c.ops.Keys + arg.entries.Keys
      && (forall k :: k in arg.entries ==> r.value.ops[k] == arg.entries[k])
      && (forall k :: k in c.ops && k !in arg.entries ==> r.value.ops[k] == c.ops[k])
      && r.value.history == c.history
    ensures Valid(c) && r.Ok? ==> Valid(r.value)
  {
    match arg
    case NotDict => Err(InvalidOperation)
    case Dict(entries) => Ok(Calculator(c.ops + entries, c.history))
  }

  /** get_history: the items in the order they were recorded. */
  function History(c: Calculator): (h: seq<Entry>)
    ensures h == c.history
  {
    c.history
  }

  /** reset_history: the history is emptied, the registry kept. */
  function Reset(c: Calculator): (r: Calculator)
    ensures History(r) == []
    ensures r.ops == c.ops
    ensures Valid(r)
  {
    Calculator(c.ops, [])
  }

  /** repeat_last_operation: runs the last history item against the current
      registry. The state is handed back as it was: nothing is appended. */
  function Repeat(c: Calculator): (r: Result<Step<Option<int>>>)
    ensures |c.history| == 0 ==> r == Ok(Step(c, None))
    ensures r.Ok? ==> r.value.state == c
    ensures |c.history| > 0 && r.Ok? ==>
      var last := c.history[|c.history| - 1];
      last.name in c.ops && r.value.output == Some(c.ops[last.name](last.params))
    ensures r.Err? <==> |c.history| > 0 && c.history[|c.history| - 1].name !in c.ops
    ensures r.Err? ==> r.error == OperationNotFound
    ensures Valid(c) ==> r.Ok?
  {
    if |c.history| == 0 then Ok(Step(c, None))
    else
      var last := c.history[|c.history| - 1];
      if last.name !in c.ops then Err(OperationNotFound)
      else Ok(Step(c, Some(c.ops[last.name](last.params))))
  }

  /** get_operations: the registered names, each once, in some order. */
  method GetOperations(c: Calculator) returns (names: seq<string>)
    ensures forall k :: k in names <==> k in c.ops
    ensures forall i, j :: 0 <= i < j < |names| ==> names[i] != names[j]
    ensures |names| == |c.ops|
  {
    names := [];
    var rest := c.ops.Keys;
    while rest != {}
      invariant rest <= c.ops.Keys
      invariant forall k :: k in names <==> k in c.ops && k !in rest
      invariant forall i, j :: 0 <= i < j < |names| ==> names[i] != names[j]
      invariant |names| + |rest| == |c.ops|
      decreases rest
    {
      var k :| k in rest;
      names := names + [k];
      rest := rest - {k};
    }
  }
}
