/** A worked session: a calculator holding an addition, one perform, one
    repeat, one reset. */
module Scenario {
  import opened Results
  import opened Calculator

  /** The addition the session registers under "add". */
  function Sum(ns: seq<int>): int {
    if |ns| == 0 then 0 else ns[0] + Sum(ns[1..])
  }

  lemma AddRepeatReset()
    ensures var c0 := Create(map["add" := Sum]);
      var p := Perform(c0, "2016-05-20 12:00:00", "add", [Num(1), Num(2), Num(3)]);
      && p.Ok? && p.value.output == 6
      && History(p.value.state) == [Entry("2016-05-20 12:00:00", "add", [1, 2, 3], 6)]
      && Repeat(p.value.state) == Ok(Step(p.value.state, Some(6)))
      && |History(Repeat(p.value.state).value.state)| == 1
      && History(Reset(p.value.state)) == []
  {
    var c0 := Create(map["add" := Sum]);
    assert Nums([Num(1), Num(2), Num(3)]) == [1, 2, 3];
    assert Sum([1, 2, 3]) == 6 by {
      assert [1, 2, 3][1..] == [2, 3];
      assert [2, 3][1..] == [3];
      assert [3][1..] == [];
    }
  }

  /** A bad parameter is reported even when the name is unknown too, and the
      calculator stays as it was. */
  lemma BadParamBeforeUnknownName()
    ensures var c0 := Create(map["add" := Sum]);
      && Perform(c0, "t", "mul", [Num(1), NonNum]) == Err(InvalidParams)
      && Perform(c0, "t", "mul", [Num(1), Num(2)]) == Err(OperationNotFound)
      && Add(c0, NotDict) == Err(InvalidOperation)
      && Repeat(c0) == Ok(Step(c0, None))
  {
    assert !IsNumeric([Num(1), NonNum][1]);
  }
}
