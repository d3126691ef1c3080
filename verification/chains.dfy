/**
  Linear flows: a chain of unconditional steps that ends at a terminal node
  returns the composition of the chain's transforms, applied in chain order.
 */
module Chains {
  import opened Nodes
  import opened Executor

  /** `fs` applied to `x` from first to last: fN(...f2(f1(x))...). */
  function Compose<D>(fs: seq<D -> D>, x: D): D
    decreases |fs|
  {
    if fs == [] then x else fs[|fs| - 1](Compose(fs[..|fs| - 1], x))
  }

  /** Composition peeled from the front: the first transform applies first. */
  lemma {:induction false} ComposeFirst<D>(fs: seq<D -> D>, x: D)
    requires |fs| > 0
    ensures Compose(fs, x) == Compose(fs[1..], fs[0](x))
    decreases |fs|
  {
    if |fs| > 1 {
      var init := fs[..|fs| - 1];
      ComposeFirst(init, x);
      assert init[1..] == fs[1..][..|fs[1..]| - 1];
      assert init[0] == fs[0];
    } else {
      assert fs[..|fs| - 1] == [];
      assert fs[1..] == [];
    }
  }

  /** `path` names a chain of unconditional steps carrying the transforms `fs`,
      each targeting the next name on the path, and the path ends at a terminal
      with `signal`. The names along such a chain are necessarily distinct:
      a repeated name would put the terminal at a step's position. */
  ghost predicate Chain<D, S, N>(schema: Schema<D, S, N>, path: seq<N>, fs: seq<D -> D>, signal: S)
  {
    && |path| == |fs| + 1
    && (forall i :: 0 <= i < |fs| ==>
          path[i] in schema.nodes && schema.nodes[path[i]] == Unconditional(fs[i], path[i + 1]))
    && path[|fs|] in schema.nodes
    && schema.nodes[path[|fs|]] == Terminal(signal)
  }

  /** From the head of a chain, a run with fuel for every step returns the
      terminal's signal and the composed data, calling the steps in path order. */
  lemma {:induction false} ChainExec<D, S, N>(
    schema: Schema<D, S, N>, path: seq<N>, fs: seq<D -> D>, signal: S, x: D, fuel: nat)
    requires Chain(schema, path, fs, signal)
    requires |fs| <= fuel
    ensures Exec(schema, State(path[0], x), fuel) == Execution(Returned(signal, Compose(fs, x)), path[..|fs|])
    decreases |fs|
  {
    if |fs| > 0 {
      var st := State(path[0], x);
      assert schema.nodes[path[0]] == Unconditional(fs[0], path[1]);
      assert Step(schema, st) == Continue(State(path[1], fs[0](x)));
      assert Chain(schema, path[1..], fs[1..], signal) by {
        forall i | 0 <= i < |fs[1..]|
          ensures path[1..][i] in schema.nodes && schema.nodes[path[1..][i]] == Unconditional(fs[1..][i], path[1..][i + 1])
        {
          assert schema.nodes[path[i + 1]] == Unconditional(fs[i + 1], path[i + 2]);
        }
      }
      ChainExec(schema, path[1..], fs[1..], signal, fs[0](x), fuel - 1);
      ComposeFirst(fs, x);
      assert [path[0]] + path[1..][..|fs| - 1] == path[..|fs|];
    }
  }

  /** A schema whose entry heads a chain of N unconditional steps ending at a
      terminal with signal S returns (S, fN(...f1(input))) once the fuel covers
      the N logic calls. */
  lemma LinearComposition<D, S, N>(
    schema: Schema<D, S, N>, path: seq<N>, fs: seq<D -> D>, signal: S, input: D, fuel: nat)
    requires Chain(schema, path, fs, signal)
    requires path[0] == schema.entry
    requires |fs| <= fuel
    ensures Run(schema, input, fuel) == Execution(Returned(signal, Compose(fs, input)), path[..|fs|])
  {
    ChainExec(schema, path, fs, signal, input, fuel);
  }
}
