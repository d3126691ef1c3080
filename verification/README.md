# Flows executor — a Dafny model

`Flows::Executor.call(schema, data)` is a small interpreter for a declarative
step graph. A schema is a pair: an entry name and a map from names to nodes.
A node is one of three things:

- a terminal: a bare signal, which ends the run;
- an unconditional step `[logic, target]`, where `logic` maps data to data;
- a conditional step `[logic, {signal => target}]`, where `logic` maps data
  to a `[signal, data]` pair.

The executor starts at the entry node. At each step it calls the logic and
moves to the node the routing picks. At a terminal it returns
`[signal, data]`. It raises `UnexpectedSignal` when a classifier produces a
signal its routing map does not list.

The model is functional:

- `nodes.dfy` (module `Nodes`): the schema as immutable datatypes. `Node` is
  `Terminal | Unconditional | Conditional`. The variant fixes the shape of the
  logic, so a data-to-data transform always goes with a single target and a
  classifier always goes with a routing map. The logic is an abstract Dafny
  function value over a data type `D`.
- `executor.dfy` (module `Executor`) holds these pieces:
  - `Step` is one turn of the loop.
  - `Exec`/`Run` is a run bounded by fuel.
  - `Execute` is the same run written as one iterative loop, the way the Ruby
    code is written.
  - `After` is the fuel-free reference reading: the cursor after `n` moves.
- `properties.dfy` (module `ExecutorProperties`): what each kind of node does,
  and how `Exec` relates to `After`. The second part covers soundness,
  completeness, when the fuel runs out, and which runs never return. It also
  covers the failure kinds.
- `chains.dfy` (module `Chains`): a chain of unconditional steps returns the
  composition of its transforms, applied in chain order.
- `scenarios.dfy` (module `Scenarios`): the four documented scenarios on
  concrete string schemas, plus a rejected signal and a self-loop.

A run yields an `Execution`: an `Outcome` plus `invoked`, the names of the
nodes whose logic was called, in call order. The outcome is one of
`Returned(signal, data)`, `Failed(UnexpectedSignal(signal, allowed))`,
`Failed(DanglingReference(name))`, or `OutOfFuel`. `invoked` is how the model
shows which collaborators ran: a terminal never appears in it.

Fuel counts logic calls. A terminal or a missing name ends the run without
using fuel. `OutOfFuel` belongs to the model, not to the Ruby executor, which
loops forever on a run whose transitions never stop;
`ExecutorProperties.NeverReturns` states exactly which runs those are.
`ExecutorProperties.ExecOutOfFuel` shows
that the fuel cuts off only runs that really have that many more steps to
take. `ExecutorProperties.FuelMonotone` shows that extra fuel never changes a
run that finished.

The model follows the Ruby code in two respects:

- A missing name is found lazily, when the run reaches it. The schema is not
  validated up front.
- The Ruby code has no error of its own for a missing name. `nodes[name]`
  gives `nil`, and the next turn of the loop crashes when it calls `call` on
  `nil`. The model reports this as `DanglingReference(name)`. When a step
  routes to a missing name, the step's logic has already run; `invoked`
  records that.

## Model

| member | source | states |
|---|---|---|
| Executor.Step | lib/flows/executor.rb:14-30 | One turn of the loop. A missing name, and only a missing name, fails with `DanglingReference` of that name. A terminal, and only a terminal, stops the run with its own signal and the data unchanged. An unconditional step moves to its target with the transformed data. A conditional step whose signal is a routing key moves to the node routed to by that signal, with the classifier's data. Only a node that carries logic can move the cursor or reject a signal. A classifier signal that is not a routing key fails the step with `UnexpectedSignal` of that same signal and the routing map's keys; conversely, a rejected signal is not among the allowed ones, and the allowed ones are exactly the keys of that conditional node's routing map. |
| Executor.Exec | lib/flows/executor.rb:13-32 | A run from a cursor makes at most `fuel` logic calls, and has spent all of them whenever it is cut off. Logic is called only at nodes of the schema that carry logic, never at a terminal. A run that returns without calling any logic returns its starting data unchanged. |
| Executor.Run | lib/flows/executor.rb:9-13 | A run starts at the entry with the input. It calls logic at most `fuel` times. If it returns without calling any logic, the returned data is the input. |
| Executor.Execute | lib/flows/executor.rb:9-33 | The iterative loop, with a cursor and data local to the call, computes exactly the execution `Run` defines: the same outcome and the same logic calls in the same order. |
| ExecutorProperties.TerminalEntry | lib/flows/executor.rb:12-14 | If the entry is a terminal, every run returns that terminal's signal with the input unchanged and calls no logic. |
| ExecutorProperties.MissingEntry | lib/flows/executor.rb:12-24 | If the entry name is not a node, the run fails with `DanglingReference` of that name before calling any logic. It never returns normally. |
| ExecutorProperties.UnconditionalMoves | lib/flows/executor.rb:19-22 | An unconditional step calls its transform once. The run then continues at the step's target with the transformed data. |
| ExecutorProperties.ConditionalRoutes | lib/flows/executor.rb:23-30 | A conditional step calls its classifier once. If the signal is a routing key, the run continues at the node routed to by that signal, with the classifier's data. |
| ExecutorProperties.ConditionalRejects | lib/flows/executor.rb:24-28 | If a classifier's signal is not a routing key, the run fails with `UnexpectedSignal` carrying that signal and the routing map's keys. Nothing is returned, and the classifier is the last logic called. |
| ExecutorProperties.DanglingTarget | lib/flows/executor.rb:19-24 | If an unconditional step routes to a missing name, its transform still runs, and then the run fails with `DanglingReference` of the target. |
| ExecutorProperties.ConditionalDanglingTarget | lib/flows/executor.rb:24-30 | If a conditional step routes an accepted signal to a missing name, its classifier still runs, and then the run fails with `DanglingReference` of that name. |
| ExecutorProperties.FuelMonotone | lib/flows/executor.rb:13-32 | A run that finished with some fuel gives the same execution with any larger fuel. The fuel only cuts runs off; it never changes where they go. |
| ExecutorProperties.ExecHalting | lib/flows/executor.rb:13-32 | Completeness against the step relation. Suppose the small-step reading stops at move `n`. With enough fuel for the logic calls, the run ends with the outcome of that stopping transition. With less, it is cut off. |
| ExecutorProperties.ExecOutOfFuel | lib/flows/executor.rb:13-32 | A run is cut off if and only if `fuel` moves are possible and the node under the cursor after them would call its logic again. |
| ExecutorProperties.ExecSettles | lib/flows/executor.rb:13-32 | Soundness against the step relation. Every run that is not cut off ends with the outcome of the transition that stops the small-step reading, at some move no later than the fuel. |
| ExecutorProperties.NeverReturns | lib/flows/executor.rb:13-32 | A run is cut off for every fuel if and only if its small-step reading never stops. These are exactly the runs on which the unbounded loop never returns. |
| ExecutorProperties.ClosedNeverDangles | lib/flows/executor.rb:12-30 | If the entry and every routing target of a schema name nodes, a run from an existing node never fails with `DanglingReference`. |
| ExecutorProperties.ClosedRunNeverDangles | lib/flows/executor.rb:12-30 | A run from the entry of such a schema never fails with `DanglingReference`. |
| ExecutorProperties.UnexpectedSignalOrigin | lib/flows/executor.rb:24-28 | A run that fails with `UnexpectedSignal` failed at the last node whose logic it called. That node is a conditional step. Its routing keys are exactly the error's allowed signals, and they do not include the error's signal. |
| Chains.ChainExec | lib/flows/executor.rb:13-22 | From the head of a chain of N unconditional steps ending at a terminal `S`, with fuel for N calls, the run returns `S` and `fN(...f1(x))`. It calls the steps in chain order. |
| Chains.LinearComposition | lib/flows/executor.rb:13-32 | The same for a whole run when the entry heads the chain: the result is `(S, fN(...f1(input)))`. |
| Scenarios.DirectTerminalScenario | spec/flows/executor_spec.rb:47-61 | A one-node schema whose entry is terminal `ok` returns `ok` and the input "who cares?", for any fuel. |
| Scenarios.SingleTransformScenario | spec/flows/executor_spec.rb:26-44 | An upcasing step followed by terminal `ok`, given "awesome", returns `ok` and "AWESOME". |
| Scenarios.BranchingWordScenario | spec/flows/executor_spec.rb:64-95 | The branching schema, given "Word", takes the `yes` route and returns `ok` and "WORD". |
| Scenarios.BranchingOtherScenario | spec/flows/executor_spec.rb:64-103 | The branching schema, given "bullshit", takes the `no` route and returns `ok` and "tihsllub". |
| Scenarios.UnroutedSignalScenario | lib/flows/executor.rb:24-28 | If only `yes` is routed, the classifier's `no` for "bullshit" fails with `UnexpectedSignal("no", {"yes"})` after one logic call. |
| Scenarios.SelfLoopNeverReturns | lib/flows/executor.rb:13-32 | A step that routes to itself never returns. Every fuel runs out, and the step is called once per unit of fuel. |

## Left out

- Ruby's runtime dispatch on `Symbol` versus `Hash` (and versus an arbitrary node shape) is left out. It is replaced by exhaustive matching on the `Node` datatype, so malformed nodes cannot be written.
- The text of the `UnexpectedSignal` message is left out. Only the error kind and its payload (the signal and the allowed keys) are modelled.
- Ruby lists the allowed keys as an array in insertion order; the model keeps them as a set.
- The unbounded `loop do` is bounded by fuel. `OutOfFuel` is a modelling artefact; the Ruby executor has no such outcome and keeps looping.
- Exceptions raised by caller-supplied logic are left out. The logic is a total Dafny function. In Ruby such exceptions pass through the executor untouched.
- Side effects of the logic are left out, apart from the order of the calls, which `invoked` records.
- For a missing name, the model reports `DanglingReference`. Ruby instead raises `NoMethodError` on `nil` one turn later. Both are failures with no result.
- Statelessness across runs is not stated as a separate lemma. It holds by construction: a schema is an immutable value, and `Run` is a pure function of the schema, the input and the fuel. In `Execute` the cursor and the data are local variables of one call.
- Concurrent use of one schema by several runs is left out. Because runs share no mutable state, there is nothing more to model.
- The concrete step bodies appear only to replay the scenarios. `Upcase` folds only ASCII letters, where Ruby's `upcase` folds all of Unicode. `Reverse` and `IsWord` match Ruby's `reverse` and `strip.casecmp('word').zero?`: `strip` removes only NUL and ASCII whitespace, and `casecmp` folds only A-Z.
- `bin/executor_benchmark.rb` is not part of this model. It is a benchmark harness with console output, random data and a comparison library.
- An up-front validation of the schema is not an operation here, because the Ruby executor does none. `Nodes.Closed` states what such a validation would guarantee.
