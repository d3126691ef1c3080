/**
  The executor: walks a schema from its entry node to a terminal node, calling
  the logic of every step it passes.

  The Ruby loop has no bound and does not return on a cyclic schema. Here one
  transition is the pure function `Step`, and a run is `Exec`, which is bounded
  by `fuel`: the number of logic calls it may make. When the fuel is spent
  before a terminal is reached the run ends in `OutOfFuel`, an outcome that
  belongs to the model and not to the Ruby executor.
 */
module Executor {
  import opened Nodes

  /** The two ways a run can fail. `UnexpectedSignal` carries the signal a
      classifier produced and the signals its routing map accepts.
      `DanglingReference` carries a name that is not a node of the schema; the
      Ruby executor then crashes on a nil node instead of raising its own error. */
  datatype Error<S(==), N> =
    | UnexpectedSignal(signal: S, allowed: set<S>)
    | DanglingReference(name: N)

  /** The cursor of one run: the name of the current node and the current data.
      It lives only inside one run. */
  datatype State<D, N> = State(at: N, data: D)

  /** The result of one transition. */
  datatype StepResult<D, S(==), N> =
    | Continue(next: State<D, N>)
    | Done(signal: S, data: D)
    | Fail(error: Error<S, N>)

  /** How a run ends. */
  datatype Outcome<D, S(==), N> =
    | Returned(signal: S, data: D)
    | Failed(error: Error<S, N>)
    | OutOfFuel

  /** A run: how it ended, and the names of the nodes whose logic it called, in
      call order. */
  datatype Execution<D, S(==), N> = Execution(outcome: Outcome<D, S, N>, invoked: seq<N>)

  datatype Option<T> = None | Some(value: T)

  /** True when the node under the cursor exists and carries logic, so that
      leaving it calls that logic once. */
  predicate Invokes<D, S(==), N(==)>(schema: Schema<D, S, N>, st: State<D, N>)
  {
    st.at in schema.nodes && !schema.nodes[st.at].Terminal?
  }

  /** One turn of the executor loop at the node named `st.at`. */
  function Step<D, S(==), N(==)>(schema: Schema<D, S, N>, st: State<D, N>): (r: StepResult<D, S, N>)
    // a missing name is the only cause of a dangling-reference failure
    ensures r.Fail? && r.error.DanglingReference? <==> st.at !in schema.nodes
    ensures r.Fail? && r.error.DanglingReference? ==> r.error.name == st.at
    // a terminal node stops the run with its own signal and the data untouched
    ensures r.Done? <==> st.at in schema.nodes && schema.nodes[st.at].Terminal?
    ensures r.Done? ==> r.signal == schema.nodes[st.at].signal && r.data == st.data
    // an unconditional step moves to its target with the transformed data
    ensures st.at in schema.nodes && schema.nodes[st.at].Unconditional? ==>
              var node := schema.nodes[st.at];
              r == Continue(State(node.target, node.transform(st.data)))
    // an accepted signal moves to the node it is routed to, with the classifier's data
    ensures st.at in schema.nodes && schema.nodes[st.at].Conditional?
            && schema.nodes[st.at].classify(st.data).0 in schema.nodes[st.at].routes ==>
              var node := schema.nodes[st.at];
              var (signal, data) := node.classify(st.data);
              r == Continue(State(node.routes[signal], data))
    // only a node that carries logic moves the cursor or rejects a signal
    ensures r.Continue? || (r.Fail? && r.error.UnexpectedSignal?) ==> Invokes(schema, st)
    // a rejected signal is one the routing map does not accept
    ensures r.Fail? && r.error.UnexpectedSignal? ==>
              && schema.nodes[st.at].Conditional?
              && r.error.allowed == schema.nodes[st.at].routes.Keys
              && r.error.signal !in r.error.allowed
    // a signal the routing map does not accept fails the step with that very signal
    ensures st.at in schema.nodes && schema.nodes[st.at].Conditional?
            && schema.nodes[st.at].classify(st.data).0 !in schema.nodes[st.at].routes ==>
              var node := schema.nodes[st.at];
              r == Fail(UnexpectedSignal(node.classify(st.data).0, node.routes.Keys))
  {
    if st.at !in schema.nodes then
      Fail(DanglingReference(st.at))
    else
      match schema.nodes[st.at]
      case Terminal(signal) =>
        Done(signal, st.data)
      case Unconditional(transform, target) =>
        Continue(State(target, transform(st.data)))
      case Conditional(classify, routes) =>
        var (signal, data) := classify(st.data);
        if signal in routes then
          Continue(State(routes[signal], data))
        else
          Fail(UnexpectedSignal(signal, routes.Keys))
  }

  /** Runs from `st`, allowing at most `fuel` logic calls. */
  function Exec<D, S(==), N(==)>(schema: Schema<D, S, N>, st: State<D, N>, fuel: nat): (e: Execution<D, S, N>)
    decreases fuel
    // the fuel bounds the logic calls, and has all been spent whenever the run is cut off
    ensures |e.invoked| <= fuel
    ensures e.outcome.OutOfFuel? ==> |e.invoked| == fuel
    // logic is called only at nodes of the schema that carry logic: never at a terminal
    ensures forall i :: 0 <= i < |e.invoked| ==>
              e.invoked[i] in schema.nodes && !schema.nodes[e.invoked[i]].Terminal?
    // a run that returns without calling logic hands back its starting data
    ensures e.invoked == [] && e.outcome.Returned? ==> e.outcome.data == st.data
  {
    var here := if Invokes(schema, st) then [st.at] else [];
    if Invokes(schema, st) && fuel == 0 then
      Execution(OutOfFuel, [])
    else
      match Step(schema, st)
      case Done(signal, data) => Execution(Returned(signal, data), here)
      case Fail(error) => Execution(Failed(error), here)
      case Continue(next) =>
        var rest := Exec(schema, next, fuel - 1);
        Execution(rest.outcome, here + rest.invoked)
  }

  /** A run of `schema` on `input`, starting at the entry node. */
  function Run<D, S(==), N(==)>(schema: Schema<D, S, N>, input: D, fuel: nat): (e: Execution<D, S, N>)
    ensures |e.invoked| <= fuel
    ensures e.invoked == [] && e.outcome.Returned? ==> e.outcome.data == input
  {
    Exec(schema, State(schema.entry, input), fuel)
  }

  /** The executor as the Ruby code writes it: one loop over a cursor and the
      data, with no recursion, so that the depth of a run costs no stack. */
  method Execute<D, S(==), N(==)>(schema: Schema<D, S, N>, input: D, fuel: nat)
    returns (outcome: Outcome<D, S, N>, invoked: seq<N>)
    ensures Execution(outcome, invoked) == Run(schema, input, fuel)
  {
    var at := schema.entry;
    var data := input;
    var left := fuel;
    invoked := [];
    while true
      invariant invoked + Exec(schema, State(at, data), left).invoked == Run(schema, input, fuel).invoked
      invariant Exec(schema, State(at, data), left).outcome == Run(schema, input, fuel).outcome
      decreases left
    {
      if at !in schema.nodes {
        return Failed(DanglingReference(at)), invoked;
      }
      match schema.nodes[at]
      case Terminal(signal) =>
        return Returned(signal, data), invoked;
      case Unconditional(transform, target) =>
        if left == 0 {
          return OutOfFuel, invoked;
        }
        data := transform(data);
        invoked := invoked + [at];
        at := target;
        left := left - 1;
      case Conditional(classify, routes) =>
        if left == 0 {
          return OutOfFuel, invoked;
        }
        var (signal, next) := classify(data);
        invoked := invoked + [at];
        if signal !in routes {
          return Failed(UnexpectedSignal(signal, routes.Keys)), invoked;
        }
        data := next;
        at := routes[signal];
        left := left - 1;
    }
  }

  /** The cursor after `n` transitions that all moved on, or `None` when the run
      stops (returns or fails) before taking `n` of them. This is the reference
      small-step reading of a run, free of fuel. */
  function After<D, S(==), N(==)>(schema: Schema<D, S, N>, st: State<D, N>, n: nat): Option<State<D, N>>
    decreases n
  {
    if n == 0 then Some(st)
    else
      match Step(schema, st)
      case Continue(next) => After(schema, next, n - 1)
      case _ => None
  }

  /** The outcome a stopping transition gives a run. */
  function Settle<D, S(==), N>(r: StepResult<D, S, N>): Outcome<D, S, N>
  {
    match r
    case Done(signal, data) => Returned(signal, data)
    case Fail(error) => Failed(error)
    case Continue(_) => OutOfFuel
  }

  /** The logic calls one transition from `st` makes: one or none. */
  function Cost<D, S(==), N(==)>(schema: Schema<D, S, N>, st: State<D, N>): nat
  {
    if Invokes(schema, st) then 1 else 0
  }
}
