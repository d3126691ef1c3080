/**
  Properties of the executor: what one transition does at each kind of node,
  how the fuel-bounded run relates to the fuel-free small-step reading `After`,
  and which failures a run can end in.
 */
module ExecutorProperties {
  import opened Nodes
  import opened Executor

  /** An entry that is a terminal returns its signal and the input unchanged,
      whatever the fuel, without calling any logic. */
  lemma TerminalEntry<D, S, N>(schema: Schema<D, S, N>, input: D, fuel: nat)
    requires schema.entry in schema.nodes && schema.nodes[schema.entry].Terminal?
    ensures Run(schema, input, fuel) == Execution(Returned(schema.nodes[schema.entry].signal, input), [])
  {
  }

  /** An entry name that is not a node fails at once, without calling any logic. */
  lemma MissingEntry<D, S, N>(schema: Schema<D, S, N>, input: D, fuel: nat)
    requires schema.entry !in schema.nodes
    ensures Run(schema, input, fuel) == Execution(Failed(DanglingReference(schema.entry)), [])
  {
  }

  /** An unconditional step calls its transform once and goes on at its target
      with the transformed data. */
  lemma UnconditionalMoves<D, S, N>(schema: Schema<D, S, N>, st: State<D, N>, fuel: nat)
    requires st.at in schema.nodes && schema.nodes[st.at].Unconditional?
    requires fuel > 0
    ensures
      var node := schema.nodes[st.at];
      var rest := Exec(schema, State(node.target, node.transform(st.data)), fuel - 1);
      Exec(schema, st, fuel) == Execution(rest.outcome, [st.at] + rest.invoked)
  {
  }

  /** A conditional step whose classifier yields an accepted signal goes on at
      the node routed to by that signal, with the classifier's data. */
  lemma ConditionalRoutes<D, S, N>(schema: Schema<D, S, N>, st: State<D, N>, fuel: nat)
    requires st.at in schema.nodes && schema.nodes[st.at].Conditional?
    requires schema.nodes[st.at].classify(st.data).0 in schema.nodes[st.at].routes
    requires fuel > 0
    ensures
      var node := schema.nodes[st.at];
      var (signal, data) := node.classify(st.data);
      var rest := Exec(schema, State(node.routes[signal], data), fuel - 1);
      Exec(schema, st, fuel) == Execution(rest.outcome, [st.at] + rest.invoked)
  {
  }

  /** A conditional step whose classifier yields a signal missing from its
      routing map fails with that signal and the accepted ones, and nothing is
      returned. */
  lemma ConditionalRejects<D, S, N>(schema: Schema<D, S, N>, st: State<D, N>, fuel: nat)
    requires st.at in schema.nodes && schema.nodes[st.at].Conditional?
    requires schema.nodes[st.at].classify(st.data).0 !in schema.nodes[st.at].routes
    requires fuel > 0
    ensures
      var node := schema.nodes[st.at];
      Exec(schema, st, fuel) ==
        Execution(Failed(UnexpectedSignal(node.classify(st.data).0, node.routes.Keys)), [st.at])
  {
  }

  /** An unconditional step whose target is not a node still calls its
      transform, and the run then fails on the missing name. */
  lemma DanglingTarget<D, S, N>(schema: Schema<D, S, N>, st: State<D, N>, fuel: nat)
    requires st.at in schema.nodes && schema.nodes[st.at].Unconditional?
    requires schema.nodes[st.at].target !in schema.nodes
    requires fuel > 0
    ensures Exec(schema, st, fuel) == Execution(Failed(DanglingReference(schema.nodes[st.at].target)), [st.at])
  {
  }

  /** A conditional step whose accepted signal is routed to a name that is not
      a node still calls its classifier, and the run then fails on the missing
      name. */
  lemma ConditionalDanglingTarget<D, S, N>(schema: Schema<D, S, N>, st: State<D, N>, fuel: nat)
    requires st.at in schema.nodes && schema.nodes[st.at].Conditional?
    requires schema.nodes[st.at].classify(st.data).0 in schema.nodes[st.at].routes
    requires schema.nodes[st.at].routes[schema.nodes[st.at].classify(st.data).0] !in schema.nodes
    requires fuel > 0
    ensures
      var node := schema.nodes[st.at];
      Exec(schema, st, fuel) ==
        Execution(Failed(DanglingReference(node.routes[node.classify(st.data).0])), [st.at])
  {
  }

  /** More fuel never changes a run that already finished: the fuel only cuts
      runs off, it never steers them. */
  lemma {:induction false} FuelMonotone<D, S, N>(schema: Schema<D, S, N>, st: State<D, N>, fuel: nat, more: nat)
    requires !Exec(schema, st, fuel).outcome.OutOfFuel?
    requires fuel <= more
    ensures Exec(schema, st, more) == Exec(schema, st, fuel)
    decreases fuel
  {
    if Invokes(schema, st) {
      match Step(schema, st)
      case Continue(next) =>
        FuelMonotone(schema, next, fuel - 1, more - 1);
      case _ =>
    }
  }

  /** Successive moves: a cursor reached after `n + 1` moves was reached after
      `n` moves, and the transition from there moved on to it. */
  lemma {:induction false} AfterLast<D, S, N>(schema: Schema<D, S, N>, st: State<D, N>, n: nat)
    requires After(schema, st, n + 1).Some?
    ensures After(schema, st, n).Some?
    ensures Step(schema, After(schema, st, n).value) == Continue(After(schema, st, n + 1).value)
    decreases n
  {
    if n > 0 {
      AfterLast(schema, Step(schema, st).next, n - 1);
    }
  }

  /** A run whose small-step reading stops at move `n` ends with the outcome of
      that stopping transition when the fuel covers its logic calls, and is cut
      off otherwise. */
  lemma {:induction false} ExecHalting<D, S, N>(
    schema: Schema<D, S, N>, st: State<D, N>, n: nat, last: State<D, N>, fuel: nat)
    requires After(schema, st, n) == Some(last)
    requires !Step(schema, last).Continue?
    ensures Exec(schema, st, fuel).outcome ==
              if n + Cost(schema, last) <= fuel then Settle(Step(schema, last)) else OutOfFuel
    decreases n
  {
    if n > 0 && fuel > 0 {
      ExecHalting(schema, Step(schema, st).next, n - 1, last, fuel - 1);
    }
  }

  /** A run is cut off exactly when `fuel` moves are possible and the node then
      under the cursor would call its logic once more. */
  lemma {:induction false} ExecOutOfFuel<D, S, N>(schema: Schema<D, S, N>, st: State<D, N>, fuel: nat)
    ensures Exec(schema, st, fuel).outcome.OutOfFuel? <==>
              After(schema, st, fuel).Some? && Invokes(schema, After(schema, st, fuel).value)
    decreases fuel
  {
    if fuel > 0 {
      match Step(schema, st)
      case Continue(next) =>
        ExecOutOfFuel(schema, next, fuel - 1);
      case _ =>
    }
  }

  /** Every run that is not cut off is the outcome of the transition that stops
      the small-step reading, at some move within the fuel. */
  lemma {:induction false} ExecSettles<D, S, N>(schema: Schema<D, S, N>, st: State<D, N>, fuel: nat)
    requires !Exec(schema, st, fuel).outcome.OutOfFuel?
    ensures exists n: nat :: n <= fuel && After(schema, st, n).Some?
              && !Step(schema, After(schema, st, n).value).Continue?
              && Settle(Step(schema, After(schema, st, n).value)) == Exec(schema, st, fuel).outcome
    decreases fuel
  {
    match Step(schema, st)
    case Continue(next) =>
      ExecSettles(schema, next, fuel - 1);
      var n: nat :| n <= fuel - 1 && After(schema, next, n).Some?
        && !Step(schema, After(schema, next, n).value).Continue?
        && Settle(Step(schema, After(schema, next, n).value)) == Exec(schema, next, fuel - 1).outcome;
      assert After(schema, st, n + 1) == After(schema, next, n);
    case _ =>
      assert After(schema, st, 0) == Some(st);
  }

  /** The runs no fuel can finish are exactly those whose small-step reading
      never stops: the runs on which the Ruby loop never returns. */
  lemma NeverReturns<D, S, N>(schema: Schema<D, S, N>, st: State<D, N>)
    ensures (forall n: nat :: After(schema, st, n).Some?) <==>
            (forall fuel: nat :: Exec(schema, st, fuel).outcome == OutOfFuel)
  {
    if forall n: nat :: After(schema, st, n).Some? {
      forall fuel: nat
        ensures Exec(schema, st, fuel).outcome == OutOfFuel
      {
        assert After(schema, st, fuel + 1).Some?;
        AfterLast(schema, st, fuel);
        ExecOutOfFuel(schema, st, fuel);
      }
    } else {
      var n: nat :| !After(schema, st, n).Some?;
      ExecOutOfFuel(schema, st, n);
      assert Exec(schema, st, n).outcome != OutOfFuel;
    }
  }

  /** A schema with no dangling name never fails on a missing name. */
  lemma {:induction false} ClosedNeverDangles<D, S, N>(schema: Schema<D, S, N>, st: State<D, N>, fuel: nat)
    requires Closed(schema)
    requires st.at in schema.nodes
    ensures !Exec(schema, st, fuel).outcome.Failed? || !Exec(schema, st, fuel).outcome.error.DanglingReference?
    decreases fuel
  {
    match Step(schema, st)
    case Continue(next) =>
      if fuel > 0 {
        assert TargetsWithin(schema.nodes[st.at], schema.nodes.Keys);
        assert next.at in schema.nodes by {
          match schema.nodes[st.at]
          case Unconditional(_, _) =>
          case Conditional(classify, routes) =>
            assert routes[classify(st.data).0] in routes.Values;
        }
        ClosedNeverDangles(schema, next, fuel - 1);
      }
    case _ =>
  }

  /** The same for a whole run from the entry. */
  lemma ClosedRunNeverDangles<D, S, N>(schema: Schema<D, S, N>, input: D, fuel: nat)
    requires Closed(schema)
    ensures !Run(schema, input, fuel).outcome.Failed? || !Run(schema, input, fuel).outcome.error.DanglingReference?
  {
    ClosedNeverDangles(schema, State(schema.entry, input), fuel);
  }

  /** A run that fails on an unexpected signal failed at the last node whose
      logic it called: a conditional step whose routing map does not accept
      the signal, and the error lists exactly the accepted signals. */
  lemma {:induction false} UnexpectedSignalOrigin<D, S, N>(schema: Schema<D, S, N>, st: State<D, N>, fuel: nat)
    requires Exec(schema, st, fuel).outcome.Failed?
    requires Exec(schema, st, fuel).outcome.error.UnexpectedSignal?
    ensures
      var e := Exec(schema, st, fuel);
      var last := e.invoked[|e.invoked| - 1];
      && |e.invoked| > 0
      && schema.nodes[last].Conditional?
      && schema.nodes[last].routes.Keys == e.outcome.error.allowed
      && e.outcome.error.signal !in e.outcome.error.allowed
    decreases fuel
  {
    match Step(schema, st)
    case Continue(next) =>
      UnexpectedSignalOrigin(schema, next, fuel - 1);
    case _ =>
  }
}
