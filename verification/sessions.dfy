/** A session: a sequence of calls made on one calculator. A call that raises
    leaves the calculator exactly as it was, so a caller that catches the
    exception and carries on sees the state before the call. */
module Sessions {
  import opened Results
  import opened Calculator

  datatype Command =
    | DoPerform(ts: string, name: string, params: seq<Value>)
    | DoAdd(arg: OpArg)
    | DoReset
    | DoRepeat

  /** The calculator after one call, whether the call succeeded or raised. */
  function Apply(c: Calculator, cmd: Command): (r: Calculator)
    ensures c.ops.Keys <= r.ops.Keys
    ensures !cmd.DoReset? ==> c.history <= r.history
    ensures cmd.DoReset? ==> r.history == []
    ensures Valid(c) ==> Valid(r)
  {
    match cmd
    case DoPerform(ts, name, params) =>
      (match Perform(c, ts, name, params)
       case Ok(s) => s.state
       case Err(_) => c)
    case DoAdd(arg) =>
      (match Add(c, arg)
       case Ok(c') => c'
       case Err(_) => c)
    case DoReset => Reset(c)
    case DoRepeat =>
      (match Repeat(c)
       case Ok(s) => s.state
       case Err(_) => c)
  }

  /** The calculator after the calls of cmds, in order. */
  function Run(c: Calculator, cmds: seq<Command>): Calculator
    decreases |cmds|
  {
    if |cmds| == 0 then c else Run(Apply(c, cmds[0]), cmds[1..])
  }

  predicate NoReset(cmds: seq<Command>) {
    forall i :: 0 <= i < |cmds| ==> !cmds[i].DoReset?
  }

  /** No call removes a registered name. */
  lemma {:induction false} RunKeepsNames(c: Calculator, cmds: seq<Command>)
    ensures c.ops.Keys <= Run(c, cmds).ops.Keys
    decreases |cmds|
  {
    if |cmds| > 0 {
      RunKeepsNames(Apply(c, cmds[0]), cmds[1..]);
    }
  }

  /** Every call preserves the registry invariant, so it holds along any session. */
  lemma {:induction false} RunPreservesValid(c: Calculator, cmds: seq<Command>)
    requires Valid(c)
    ensures Valid(Run(c, cmds))
    decreases |cmds|
  {
    if |cmds| > 0 {
      RunPreservesValid(Apply(c, cmds[0]), cmds[1..]);
    }
  }

  /** Until a reset, the history only grows at its end: what was recorded
      stays recorded, in place. */
  lemma {:induction false} RunWithoutResetExtendsHistory(c: Calculator, cmds: seq<Command>)
    requires NoReset(cmds)
    ensures c.history <= Run(c, cmds).history
    decreases |cmds|
  {
    if |cmds| > 0 {
      assert !cmds[0].DoReset?;
      var rest := cmds[1..];
      assert NoReset(rest) by {
        forall i | 0 <= i < |rest| ensures !rest[i].DoReset? {
          assert rest[i] == cmds[i + 1];
        }
      }
      RunWithoutResetExtendsHistory(Apply(c, cmds[0]), rest);
    }
  }

  /** Starting from a new calculator, repeat never misses the registry,
      whatever calls came before. */
  lemma RepeatNeverMissesAfterSession(ops: map<string, Op>, cmds: seq<Command>)
    ensures Repeat(Run(Create(ops), cmds)).Ok?
  {
    RunPreservesValid(Create(ops), cmds);
  }

  /** Repeating right after a successful perform returns that perform's
      result and leaves the history as perform left it. */
  lemma RepeatAfterPerform(c: Calculator, ts: string, name: string, params: seq<Value>)
    requires Perform(c, ts, name, params).Ok?
    ensures var s := Perform(c, ts, name, params).value;
      Repeat(s.state) == Ok(Step(s.state, Some(s.output)))
  {
  }

  /** Repeat uses the registry as it is now: if the name was overridden after
      the perform, the new operation answers. */
  lemma RepeatUsesCurrentRegistry(c: Calculator, ts: string, name: string, params: seq<Value>, g: Op)
    requires Perform(c, ts, name, params).Ok?
    ensures var s := Perform(c, ts, name, params).value;
      var c' := Add(s.state, Dict(map[name := g])).value;
      Repeat(c') == Ok(Step(c', Some(g(Nums(params)))))
  {
  }
}
