/**
  The data model of a flow schema: a named collection of nodes plus the name
  of the node execution starts from.

  The logic attached to a step is caller-supplied and stays abstract: a Dafny
  function value over an arbitrary data type `D`. Signals have type `S` and
  node names type `N`; both are free-form symbols in the Ruby executor.
 */
module Nodes {

  /** One node of the step graph.
      - `Terminal(signal)` ends execution and hands `signal` back to the caller.
      - `Unconditional(transform, target)` maps the data and always goes on at `target`.
      - `Conditional(classify, routes)` maps the data to a signal and new data, and
        goes on at the node that `routes` assigns to that signal.
      The shape of the logic is fixed by the variant, so a transform can never be
      paired with a routing map, nor a classifier with a single target. */
  datatype Node<!D, S(==), N> =
    | Terminal(signal: S)
    | Unconditional(transform: D -> D, target: N)
    | Conditional(classify: D -> (S, D), routes: map<S, N>)

  /** A schema: the entry name and the nodes by name. It is an immutable value,
      so no execution can change it, and any number of executions may share it. */
  datatype Schema<!D, S(==), N(==)> = Schema(entry: N, nodes: map<N, Node<D, S, N>>)

  /** Every name `node` can route to lies in `names`. */
  predicate TargetsWithin<D, S(==), N(==)>(node: Node<D, S, N>, names: set<N>)
  {
    match node
    case Terminal(_) => true
    case Unconditional(_, target) => target in names
    case Conditional(_, routes) => routes.Values <= names
  }

  /** A schema with no dangling name: the entry and every routing target are
      nodes of the schema. The executor never checks this; it only finds a
      missing name when it reaches it. */
  ghost predicate Closed<D, S, N>(schema: Schema<D, S, N>)
  {
    && schema.entry in schema.nodes
    && forall name :: name in schema.nodes ==> TargetsWithin(schema.nodes[name], schema.nodes.Keys)
  }
}
