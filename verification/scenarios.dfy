/**
  The executor's documented scenarios, replayed on concrete schemas whose names,
  signals and data are strings. `Upcase` folds only ASCII letters, where Ruby's
  String#upcase folds all of Unicode; `Reverse` and `IsWord` match Ruby's
  String#reverse and `strip.casecmp('word').zero?`, since `strip` removes only
  NUL and ASCII whitespace and `casecmp` folds only A-Z.
 */
module Scenarios {
  import opened Nodes
  import opened Executor
  import opened ExecutorProperties

  type Flow = Schema<string, string, string>

  /** ASCII upper-casing: only 'a'..'z' change. */
  function Upcase(s: string): string
  {
    if s == [] then []
    else [if 'a' <= s[0] <= 'z' then (s[0] as int - 32) as char else s[0]] + Upcase(s[1..])
  }

  /** ASCII lower-casing: only 'A'..'Z' change. */
  function Downcase(s: string): string
  {
    if s == [] then []
    else [if 'A' <= s[0] <= 'Z' then (s[0] as int + 32) as char else s[0]] + Downcase(s[1..])
  }

  function Reverse(s: string): string
  {
    if s == [] then [] else Reverse(s[1..]) + [s[0]]
  }

  /** Ruby's whitespace for `strip`: NUL, tab, line feed, vertical tab, form
      feed, carriage return and space. */
  predicate IsSpace(c: char)
  {
    c == ' ' || c == '\0' || 9 <= c as int <= 13
  }

  /** Leading and trailing whitespace removed. */
  function Strip(s: string): string
    decreases |s|
  {
    if s != [] && IsSpace(s[0]) then Strip(s[1..])
    else if s != [] && IsSpace(s[|s| - 1]) then Strip(s[..|s| - 1])
    else s
  }

  /** The classifier of the branching scenario: "yes" for the word "word" in any
      ASCII case and with surrounding blanks, "no" otherwise; the data passes
      through unchanged. */
  function IsWord(x: string): (string, string)
  {
    if Downcase(Strip(x)) == "word" then ("yes", x) else ("no", x)
  }

  /** A schema whose entry is a terminal. */
  function DirectTerminal(): Flow
  {
    Schema("enter", map["enter" := Terminal("ok")])
  }

  /** One transform, then the terminal. */
  function SingleTransform(): Flow
  {
    Schema("upcase", map["upcase" := Unconditional(Upcase, "exit"), "exit" := Terminal("ok")])
  }

  /** A classifier routing to one of two transforms, both ending at one terminal;
      `routes` is the classifier's routing map. */
  function Branching(routes: map<string, string>): Flow
  {
    Schema("is_word", map[
      "is_word" := Conditional(IsWord, routes),
      "do_upcase" := Unconditional(Upcase, "exit"),
      "do_reverse" := Unconditional(Reverse, "exit"),
      "exit" := Terminal("ok")])
  }

  function BothPaths(): map<string, string>
  {
    map["yes" := "do_upcase", "no" := "do_reverse"]
  }

  /** A step that routes back to itself. */
  function SelfLoop(f: string -> string): Flow
  {
    Schema("again", map["again" := Unconditional(f, "again")])
  }

  lemma DirectTerminalScenario(fuel: nat)
    ensures Run(DirectTerminal(), "who cares?", fuel) == Execution(Returned("ok", "who cares?"), [])
  {
    TerminalEntry(DirectTerminal(), "who cares?", fuel);
  }

  lemma SingleTransformScenario(fuel: nat)
    requires fuel >= 1
    ensures Run(SingleTransform(), "awesome", fuel) == Execution(Returned("ok", "AWESOME"), ["upcase"])
  {
    var schema := SingleTransform();
    UnconditionalMoves(schema, State("upcase", "awesome"), fuel);
    assert Upcase("awesome") == "AWESOME";
  }

  /** "Word" is the word: the upper-casing path runs. */
  lemma BranchingWordScenario(fuel: nat)
    requires fuel >= 2
    ensures Run(Branching(BothPaths()), "Word", fuel) ==
              Execution(Returned("ok", "WORD"), ["is_word", "do_upcase"])
  {
    var schema := Branching(BothPaths());
    assert Strip("Word") == "Word";
    assert Downcase("Word") == "word";
    assert IsWord("Word") == ("yes", "Word");
    ConditionalRoutes(schema, State("is_word", "Word"), fuel);
    UnconditionalMoves(schema, State("do_upcase", "Word"), fuel - 1);
    assert Upcase("Word") == "WORD";
  }

  lemma NotTheWord()
    ensures IsWord("bullshit") == ("no", "bullshit")
  {
  }

  lemma ReverseBullshit()
    ensures Reverse("bullshit") == "tihsllub"
  {
  }

  /** Any other text takes the reversing path. */
  lemma BranchingOtherScenario(fuel: nat)
    requires fuel >= 2
    ensures Run(Branching(BothPaths()), "bullshit", fuel) ==
              Execution(Returned("ok", "tihsllub"), ["is_word", "do_reverse"])
  {
    var schema := Branching(BothPaths());
    NotTheWord();
    ConditionalRoutes(schema, State("is_word", "bullshit"), fuel);
    UnconditionalMoves(schema, State("do_reverse", "bullshit"), fuel - 1);
    ReverseBullshit();
  }

  /** With only "yes" routed, the classifier's "no" is rejected: the run fails
      with that signal and the one accepted signal, after one logic call. */
  lemma UnroutedSignalScenario(fuel: nat)
    requires fuel >= 1
    ensures Run(Branching(map["yes" := "do_upcase"]), "bullshit", fuel) ==
              Execution(Failed(UnexpectedSignal("no", {"yes"})), ["is_word"])
  {
    var schema := Branching(map["yes" := "do_upcase"]);
    NotTheWord();
    ConditionalRejects(schema, State("is_word", "bullshit"), fuel);
  }

  /** A step that routes to itself never returns: every fuel runs out, with the
      step called once per unit of fuel. */
  lemma {:induction false} SelfLoopNeverReturns(f: string -> string, x: string, fuel: nat)
    ensures Exec(SelfLoop(f), State("again", x), fuel).outcome == OutOfFuel
    ensures Exec(SelfLoop(f), State("again", x), fuel).invoked == seq(fuel, _ => "again")
    decreases fuel
  {
    if fuel > 0 {
      UnconditionalMoves(SelfLoop(f), State("again", x), fuel);
      SelfLoopNeverReturns(f, f(x), fuel - 1);
      assert ["again"] + seq(fuel - 1, _ => "again") == seq(fuel, _ => "again");
    }
  }
}
