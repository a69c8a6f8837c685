/** The priority-ordering scenario of the hook stack's unit tests: two hooks
    that append a marker to the `order` metadata list at the AfterAction
    stage, registered low (priority 10) first and high (priority 200) second. */
module HookStackScenario {
  import opened Wrappers
  import opened Agent
  import opened SessionStage
  import opened SessionHooks
  import opened HookStack

  const OrderKey: string := "order"

  /** The `order` metadata list, or the empty list when it is absent or not
      a list. */
  function OrderOf(s: AgentSession): seq<string> {
    if OrderKey in s.state.metadata && s.state.metadata[OrderKey].StrList?
    then s.state.metadata[OrderKey].items
    else []
  }

  /** Appends `marker` to the order list at AfterAction; passes the session
      through at every other stage. */
  function Mark(marker: string, stage: Stage, s: AgentSession): (r: AgentSession)
    ensures stage != AfterAction ==> r == s
    ensures stage == AfterAction ==> OrderOf(r) == OrderOf(s) + [marker]
    ensures r.sessionId == s.sessionId && r.state.systemPrompt == s.state.systemPrompt
  {
    if stage != AfterAction then s
    else s.WithState(s.state.WithMetadata(OrderKey, StrList(OrderOf(s) + [marker])))
  }

  /** The test's anonymous marker class. */
  function MarkerHook(marker: string): Controller {
    Custom("class@anonymous", (stage: Stage, s: AgentSession) => Mark(marker, stage, s))
  }

  /** `empty()->with($low, priority: 10)->with($high, priority: 200)`. */
  function ScenarioStack(): Stack {
    Stack.Empty().With(MarkerHook("low"), 10).With(MarkerHook("high"), 200)
  }

  /** The high hook ends up first, the low one second. */
  lemma ScenarioOrder()
    ensures ScenarioStack().hooks
            == [RegisteredHook.Register(MarkerHook("high"), 200), RegisteredHook.Register(MarkerHook("low"), 10)]
  {
    var low := RegisteredHook.Register(MarkerHook("low"), 10);
    var high := RegisteredHook.Register(MarkerHook("high"), 200);
    var empty := Stack.Empty();
    WithIsInsert(empty, MarkerHook("low"), 10, None);
    assert StableSort(empty.hooks) == [];
    assert Insert([], low) == [low];
    var one := empty.With(MarkerHook("low"), 10);
    assert one.hooks == [low];
    WithIsInsert(one, MarkerHook("high"), 200, None);
    assert StableSort([low]) == Insert(StableSort([]), low) == [low];
    assert Insert([low], high) == [high, low];
  }

  /** Running the scenario stack is marking "high", then "low". */
  lemma ScenarioRun(stage: Stage, session: AgentSession)
    ensures ScenarioStack().OnStage(stage, session) == Mark("low", stage, Mark("high", stage, session))
  {
    ScenarioOrder();
    var hooks := ScenarioStack().hooks;
    var afterHigh := hooks[0].OnStage(stage, session);
    assert afterHigh == Mark("high", stage, session);
    var afterLow := hooks[1..][0].OnStage(stage, afterHigh);
    assert afterLow == Mark("low", stage, afterHigh);
    assert hooks[1..][1..] == [];
    assert RunHooks(hooks[1..][1..], stage, afterLow) == afterLow;
    assert RunHooks(hooks[1..], stage, afterHigh) == afterLow;
    assert RunHooks(hooks, stage, session) == afterLow;
  }

  lemma MarkTwice(s: AgentSession)
    ensures OrderOf(Mark("low", AfterAction, Mark("high", AfterAction, s))) == OrderOf(s) + ["high", "low"]
  {
    assert OrderOf(s) + ["high"] + ["low"] == OrderOf(s) + ["high", "low"];
  }

  /** The later-registered, higher-priority hook runs first: one AfterAction
      pass appends "high" then "low". */
  lemma HigherPriorityRunsFirst(session: AgentSession)
    ensures OrderOf(ScenarioStack().OnStage(AfterAction, session)) == OrderOf(session) + ["high", "low"]
  {
    MarkTwice(session);
    ScenarioRun(AfterAction, session);
  }

  /** Driving AfterAction twice appends the pair once per drive. */
  lemma EachDriveAppendsOnce(session: AgentSession)
    ensures var once := ScenarioStack().OnStage(AfterAction, session);
            OrderOf(ScenarioStack().OnStage(AfterAction, once)) == OrderOf(session) + ["high", "low", "high", "low"]
  {
    var once := ScenarioStack().OnStage(AfterAction, session);
    HigherPriorityRunsFirst(session);
    HigherPriorityRunsFirst(once);
    PairTwice(OrderOf(session));
  }

  lemma PairTwice(xs: seq<string>)
    ensures xs + ["high", "low"] + ["high", "low"] == xs + ["high", "low", "high", "low"]
  {
  }

  /** At any other stage both hooks pass the session through. */
  lemma OtherStagesUntouched(stage: Stage, session: AgentSession)
    requires stage != AfterAction
    ensures ScenarioStack().OnStage(stage, session) == session
  {
    ScenarioRun(stage, session);
  }

  /** A stack built through the public constructor need not be sorted, and
      then registering even a pass-through hook changes what it does: `with`
      re-sorts the existing hooks too. Here hooks "a" (priority 0) and "b"
      (priority 10) are given in that order; afterwards "b" runs first. */
  lemma UnsortedStackReorders(session: AgentSession)
    ensures var st := Stack([RegisteredHook.Register(MarkerHook("a"), 0), RegisteredHook.Register(MarkerHook("b"), 10)]);
            && OrderOf(st.OnStage(AfterAction, session)) == OrderOf(session) + ["a", "b"]
            && OrderOf(st.With(PassThrough, 5).OnStage(AfterAction, session)) == OrderOf(session) + ["b", "a"]
  {
    var a := RegisteredHook.Register(MarkerHook("a"), 0);
    var b := RegisteredHook.Register(MarkerHook("b"), 10);
    var st := Stack([a, b]);
    var afterA := Mark("a", AfterAction, session);
    var afterB := Mark("b", AfterAction, afterA);
    assert [a, b][1..] == [b];
    assert RunHooks([b], AfterAction, afterA) == afterB;
    assert st.OnStage(AfterAction, session) == afterB;
    assert OrderOf(session) + ["a"] + ["b"] == OrderOf(session) + ["a", "b"];

    WithPassThroughRunsSorted(st, 5, None, AfterAction, session);
    assert StableSort([a]) == Insert(StableSort([]), a) == [a];
    assert [a, b][..1] == [a];
    assert StableSort([a, b]) == Insert([a], b) == [b, a];
    var firstB := Mark("b", AfterAction, session);
    var thenA := Mark("a", AfterAction, firstB);
    assert [b, a][1..] == [a];
    assert RunHooks([a], AfterAction, firstB) == thenA;
    assert Stack([b, a]).OnStage(AfterAction, session) == thenA;
    assert OrderOf(session) + ["b"] + ["a"] == OrderOf(session) + ["b", "a"];
  }
}
