# Extensible calculator — a Dafny model

The calculator library keeps a registry of named numeric operations and a
history of the calls it executed. A calculator is a record of two parts:
`ops`, a map from operation name to operation, and `history`, the sequence of
`(timestamp, name, params, result)` items recorded by successful performs.
This project models that record as an immutable `Calculator` value and each of
the library's entry points (`create_new_calculator`, `perform_operation`,
`add_new_operation`, `get_operations`, `get_history`, `reset_history`,
`repeat_last_operation`) as a pure function or method on it, and proves what
each call grows, what each error path leaves unchanged, and that the registry
invariant — every history item names a registered operation — holds along any
session, so that repeating the last call never misses the registry.

Files:

- `results.dfy` (module `Results`): the three errors `InvalidParams`,
  `OperationNotFound`, `InvalidOperation`, and the `Result`/`Option` wrappers.
- `calculator.dfy` (module `Calculator`): the state, the parameter values
  (`Value = Num(int) | NonNum`, so the numeric check is the predicate
  `IsNumeric`), and the transitions. `History` is `get_history`.
- `sessions.dfy` (module `Sessions`): a session is a sequence of calls; a call
  that raises leaves the state as it was. Lemmas over whole sessions.
- `scenario.dfy` (module `Scenario`): a concrete walk-through with an
  addition registered under `"add"`.

Where the code does more than its documentation says, the model follows the code:

- the docstring of `add_new_operation` (calculator/main.py:47) speaks of a
  dict holding a single operation; the code accepts any dict (or instance of
  a dict subclass), of any number of entries, and merges all of them.
  `Calculator.Add` merges every entry; anything that is not a dict, including
  a mapping of another class, is refused with InvalidOperation.
- `repeat_last_operation` looks the name up in the registry as it is now, not
  as it was when the call was recorded; if the name was overridden since, the
  result differs from the recorded one (`Sessions.RepeatUsesCurrentRegistry`).
  The key lookup can raise in the code; the model reports it as
  `OperationNotFound` and proves it cannot happen under the invariant.

## Model

| member | source | states |
|---|---|---|
| `Calculator.Nums` | calculator/main.py:30-33 | the numbers passed to the operation are those of the params, one per param, in order |
| `Calculator.Create` | calculator/main.py:7-16 | a new calculator has exactly the given operations (none by default) and an empty history, so it satisfies the registry invariant |
| `Calculator.Perform` | calculator/main.py:19-39 | fails with InvalidParams exactly when some param is not numeric, whatever the name; fails with OperationNotFound exactly when the params are numeric and the name is unregistered; otherwise returns `ops[name](params)`, keeps the registry, keeps every earlier item and appends exactly one item `(ts, name, params, result)`; preserves the registry invariant |
| `Calculator.Add` | calculator/main.py:42-55 | fails, and then only with InvalidOperation, exactly when the argument is not a dict; succeeds on every dict, and then the registry's names are the old ones plus the argument's, argument names map to the argument's operations, other names keep theirs, and the history is untouched; preserves the registry invariant |
| `Calculator.History` | calculator/main.py:64-75 | returns the recorded items themselves, in the order they were recorded |
| `Calculator.Reset` | calculator/main.py:64-82 | after a reset the history read back is empty and the registry is the same |
| `Calculator.Repeat` | calculator/main.py:85-97 | on an empty history answers None; otherwise answers the current `ops[last.name](last.params)`; never changes the state; fails (OperationNotFound) exactly when the last item's name is unregistered, which the registry invariant rules out |
| `Calculator.GetOperations` | calculator/main.py:57-61 | returns every registered name, nothing else, each once, so as many names as the registry holds |
| `Sessions.Apply` | calculator/main.py:19-97 | no call removes a registered name; every call but a reset keeps the recorded history as a prefix; a reset empties it; every call preserves the registry invariant |
| `Sessions.RunKeepsNames` | calculator/main.py:55 | along any session the set of registered names only grows |
| `Sessions.RunPreservesValid` | calculator/main.py:33-82 | the registry invariant holds after any session that starts from a state satisfying it |
| `Sessions.RunWithoutResetExtendsHistory` | calculator/main.py:37 | in a session without a reset, the starting history is a prefix of the final one |
| `Sessions.RepeatNeverMissesAfterSession` | calculator/main.py:89-97 | after any session from a new calculator, repeat does not fail |
| `Sessions.RepeatAfterPerform` | calculator/main.py:33-39 | repeating right after a successful perform answers that perform's result and leaves the state as the perform left it |
| `Sessions.RepeatUsesCurrentRegistry` | calculator/main.py:92-97 | if the performed name is overridden by add, repeat answers with the new operation on the recorded params |
| `Scenario.AddRepeatReset` | calculator/main.py:16-82 | with `add` registered, performing it on (1, 2, 3) returns 6 and records one item; repeat then returns 6 and the history still has one item; after a reset the history is empty |
| `Scenario.BadParamBeforeUnknownName` | calculator/main.py:30-33 | a non-numeric param gives InvalidParams even for an unknown name; numeric params with an unknown name give OperationNotFound; add of a non-dict gives InvalidOperation; repeat on a new calculator answers None |

## Left out

- The clock: the execution time comes from the system clock in the code; in
  the model it is a string parameter of `Perform`.
- The operation implementations and the exception classes are separate modules
  that are not part of this model: operations are total functions from the
  sequence of numbers to a number, exceptions are the constructors of `Error`.
  An operation that raises (a division by zero, say) is not modelled.
- Floats and the fact that booleans pass the numeric check: numbers are
  unbounded integers, and anything else is `NonNum`.
- Aliasing: the default registry `{}` is one object shared by every
  calculator created without operations, `create_new_calculator` keeps the
  caller's own dict rather than a copy, `get_history` hands out the live
  list, and the reset clears that list in place. The model passes state by
  value, so none of these sharing effects appear. In the code, whoever holds
  that dict or the live history list can remove a name or add an item, after
  which `repeat_last_operation` raises KeyError; so
  `Sessions.RepeatNeverMissesAfterSession` holds only for sessions made of the
  library's own calls.
- The value `add_new_operation` returns (the `None` of the in-place update): it
  carries nothing; `Add` returns the new calculator instead.
- The order of the names `get_operations` returns is the registry's iteration
  order in the code; `GetOperations` promises no particular order.
