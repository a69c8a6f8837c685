/** The session hook stack: an immutable list of registered hooks kept in
    descending priority order by a stable re-sort on every registration, run
    as a left fold in which each hook receives the previous hook's output. */
module HookStack {
  import opened Wrappers
  import opened Agent
  import opened SessionStage
  import opened SessionHooks

  /** The class identity of the hook stack. */
  const StackClass: string := "Cognesy\\Agents\\Session\\SessionHookStack"

  /** Hooks ordered by non-increasing priority. */
  ghost predicate SortedDesc(s: seq<RegisteredHook>) {
    forall i, j :: 0 <= i < j < |s| ==> s[i].priority >= s[j].priority
  }

  /** The hooks of priority `k`, in the order they appear. */
  function WithPriority(s: seq<RegisteredHook>, k: int): (r: seq<RegisteredHook>)
    ensures |r| <= |s|
    ensures forall j :: 0 <= j < |r| ==> r[j].priority == k
  {
    if |s| == 0 then []
    else (if s[0].priority == k then [s[0]] else []) + WithPriority(s[1..], k)
  }

  /** The number of leading hooks whose priority is at least `p`: where a
      stable insertion puts a new hook of priority `p`. */
  function InsertionPoint(s: seq<RegisteredHook>, p: int): (i: nat)
    ensures i <= |s|
    ensures forall j :: 0 <= j < i ==> s[j].priority >= p
    ensures i < |s| ==> s[i].priority < p
  {
    if |s| == 0 || s[0].priority < p then 0 else 1 + InsertionPoint(s[1..], p)
  }

  /** Inserts `x` after every leading hook of priority at least its own: one
      step of a stable sort by descending priority. */
  function Insert(s: seq<RegisteredHook>, x: RegisteredHook): (r: seq<RegisteredHook>)
    ensures |r| == |s| + 1
  {
    if |s| == 0 then [x]
    else if s[0].priority >= x.priority then [s[0]] + Insert(s[1..], x)
    else [x] + s
  }

  /** Insertion adds exactly the new hook. */
  lemma {:induction false} InsertPermutes(s: seq<RegisteredHook>, x: RegisteredHook)
    ensures multiset(Insert(s, x)) == multiset(s) + multiset{x}
  {
    if |s| > 0 && s[0].priority >= x.priority {
      InsertPermutes(s[1..], x);
      assert s == [s[0]] + s[1..];
    }
  }

  /** Insertion keeps a sorted list sorted. */
  lemma {:induction false} InsertSorted(s: seq<RegisteredHook>, x: RegisteredHook)
    requires SortedDesc(s)
    ensures SortedDesc(Insert(s, x))
  {
    if |s| > 0 && s[0].priority >= x.priority {
      var rest := Insert(s[1..], x);
      InsertSorted(s[1..], x);
      InsertPermutes(s[1..], x);
      forall j | 0 <= j < |rest|
        ensures s[0].priority >= rest[j].priority
      {
        assert rest[j] in multiset(rest);
        assert rest[j] in multiset(s[1..]) || rest[j] == x;
        if rest[j] != x {
          assert rest[j] in s[1..];
          var k :| 0 <= k < |s[1..]| && s[1..][k] == rest[j];
          assert s[k + 1] == rest[j];
        }
      }
    }
  }

  /** Insertion sort by descending priority; stable, like PHP 8's `usort`. */
  function StableSort(s: seq<RegisteredHook>): (r: seq<RegisteredHook>)
    ensures |r| == |s|
  {
    if |s| == 0 then []
    else Insert(StableSort(s[..|s| - 1]), s[|s| - 1])
  }

  /** The sort's output is ordered by non-increasing priority. */
  lemma {:induction false} StableSortSorted(s: seq<RegisteredHook>)
    ensures SortedDesc(StableSort(s))
  {
    if |s| > 0 {
      StableSortSorted(s[..|s| - 1]);
      InsertSorted(StableSort(s[..|s| - 1]), s[|s| - 1]);
    }
  }

  /** Sorting only reorders. */
  lemma {:induction false} StableSortPermutes(s: seq<RegisteredHook>)
    ensures multiset(StableSort(s)) == multiset(s)
  {
    if |s| > 0 {
      assert s == s[..|s| - 1] + [s[|s| - 1]];
      StableSortPermutes(s[..|s| - 1]);
      InsertPermutes(StableSort(s[..|s| - 1]), s[|s| - 1]);
    }
  }

  /** Runs `hooks` in order, each on the previous one's output. */
  function RunHooks(hooks: seq<RegisteredHook>, stage: Stage, session: AgentSession): AgentSession
  {
    if |hooks| == 0 then session
    else RunHooks(hooks[1..], stage, hooks[0].OnStage(stage, session))
  }

  datatype Stack = Stack(hooks: seq<RegisteredHook>) {

    /** `SessionHookStack::empty()`. */
    static function Empty(): (st: Stack)
      ensures |st.hooks| == 0
      ensures forall stage, s :: st.OnStage(stage, s) == s
    {
      Stack([])
    }

    /** `with($hook, $priority = 0, $name = null)`: appends the registered hook
        and stably re-sorts the whole list by descending priority. */
    function With(hook: Controller, priority: int := 0, name: Option<string> := None): (st: Stack)
      ensures |st.hooks| == |hooks| + 1
    {
      Stack(StableSort(hooks + [RegisteredHook.Register(hook, priority, name)]))
    }

    /** The stack as a controller: the left fold of its hooks. */
    function OnStage(stage: Stage, session: AgentSession): AgentSession {
      RunHooks(hooks, stage, session)
    }

    /** The stack is itself a session controller, so it can be registered in
        another stack. */
    function AsController(): (c: Controller)
      ensures c.ClassName() == StackClass
      ensures forall stage, s :: c.OnStage(stage, s) == OnStage(stage, s)
    {
      Custom(StackClass, (stage: Stage, s: AgentSession) => OnStage(stage, s))
    }
  }

  /** After registering, the stack is ordered by non-increasing priority,
      whatever order the receiver was in. */
  lemma WithSorted(st: Stack, hook: Controller, priority: int, name: Option<string>)
    ensures SortedDesc(st.With(hook, priority, name).hooks)
  {
    StableSortSorted(st.hooks + [RegisteredHook.Register(hook, priority, name)]);
  }

  /** Registering is stable: for every priority, the hooks of that priority
      are the receiver's, in the receiver's order, followed by the new one if
      it has that priority. */
  lemma WithStable(st: Stack, hook: Controller, priority: int, name: Option<string>, k: int)
    ensures var reg := RegisteredHook.Register(hook, priority, name);
            WithPriority(st.With(hook, priority, name).hooks, k)
            == WithPriority(st.hooks, k) + (if priority == k then [reg] else [])
  {
    var reg := RegisteredHook.Register(hook, priority, name);
    StableSortKeepsTies(st.hooks + [reg]);
    WithPriorityAppend(st.hooks, [reg], k);
    assert [reg][1..] == [];
  }

  /** Registering adds exactly the new registered hook to the stack's hooks. */
  lemma WithPermutes(st: Stack, hook: Controller, priority: int, name: Option<string>)
    ensures multiset(st.With(hook, priority, name).hooks)
            == multiset(st.hooks) + multiset{RegisteredHook.Register(hook, priority, name)}
  {
    StableSortPermutes(st.hooks + [RegisteredHook.Register(hook, priority, name)]);
  }

  /** Running `a + b` is running `a`, then `b` on its output. */
  lemma {:induction false} RunHooksAppend(a: seq<RegisteredHook>, b: seq<RegisteredHook>, stage: Stage, s: AgentSession)
    ensures RunHooks(a + b, stage, s) == RunHooks(b, stage, RunHooks(a, stage, s))
  {
    if |a| > 0 {
      assert (a + b)[1..] == a[1..] + b;
      RunHooksAppend(a[1..], b, stage, a[0].OnStage(stage, s));
    } else {
      assert a + b == b;
    }
  }

  /** The stack's `foreach` loop computes the left fold. */
  method OnStageLoop(st: Stack, stage: Stage, session: AgentSession) returns (next: AgentSession)
    ensures next == st.OnStage(stage, session)
  {
    next := session;
    var i := 0;
    while i < |st.hooks|
      invariant 0 <= i <= |st.hooks|
      invariant next == RunHooks(st.hooks[..i], stage, session)
    {
      RunHooksAppend(st.hooks[..i], [st.hooks[i]], stage, session);
      assert st.hooks[..i + 1] == st.hooks[..i] + [st.hooks[i]];
      next := st.hooks[i].OnStage(stage, next);
      i := i + 1;
    }
    assert st.hooks[..i] == st.hooks;
  }

  /** Selecting one priority distributes over concatenation. */
  lemma {:induction false} WithPriorityAppend(a: seq<RegisteredHook>, b: seq<RegisteredHook>, k: int)
    ensures WithPriority(a + b, k) == WithPriority(a, k) + WithPriority(b, k)
  {
    if |a| > 0 {
      assert (a + b)[1..] == a[1..] + b;
      WithPriorityAppend(a[1..], b, k);
    } else {
      assert a + b == b;
    }
  }

  /** Inserting into a sorted list puts the new hook after every hook of its
      own priority: ties keep their order. */
  lemma {:induction false} InsertKeepsTies(s: seq<RegisteredHook>, x: RegisteredHook, k: int)
    requires SortedDesc(s)
    ensures WithPriority(Insert(s, x), k) == WithPriority(s, k) + WithPriority([x], k)
  {
    if |s| == 0 {
      assert Insert(s, x) == [x];
    } else if s[0].priority >= x.priority {
      var rest := Insert(s[1..], x);
      var head := if s[0].priority == k then [s[0]] else [];
      assert ([s[0]] + rest)[1..] == rest;
      assert WithPriority(Insert(s, x), k) == head + WithPriority(rest, k);
      SortedTail(s);
      InsertKeepsTies(s[1..], x, k);
      assert WithPriority(s, k) == head + WithPriority(s[1..], k);
    } else {
      InsertInFrontKeepsTies(s, x, k);
    }
  }

  lemma SortedTail(s: seq<RegisteredHook>)
    requires SortedDesc(s) && |s| > 0
    ensures SortedDesc(s[1..])
    ensures forall j :: 0 <= j < |s| ==> s[j].priority <= s[0].priority
  {
  }

  /** A hook of strictly higher priority than a sorted list's head goes in
      front, which is after all hooks of its own priority (there are none). */
  lemma InsertInFrontKeepsTies(s: seq<RegisteredHook>, x: RegisteredHook, k: int)
    requires SortedDesc(s) && |s| > 0 && s[0].priority < x.priority
    ensures WithPriority(Insert(s, x), k) == WithPriority(s, k) + WithPriority([x], k)
  {
    assert Insert(s, x) == [x] + s;
    assert ([x] + s)[1..] == s;
    if x.priority == k {
      SortedTail(s);
      NoneOfPriority(s, k);
    }
  }

  /** A list whose priorities all lie below `k` has no hook of priority `k`. */
  lemma NoneOfPriority(s: seq<RegisteredHook>, k: int)
    requires forall j :: 0 <= j < |s| ==> s[j].priority < k
    ensures WithPriority(s, k) == []
  {
  }

  /** The sort is stable: for every priority, the hooks of that priority
      appear in the same relative order before and after sorting. */
  lemma {:induction false} StableSortKeepsTies(s: seq<RegisteredHook>)
    ensures forall k :: WithPriority(StableSort(s), k) == WithPriority(s, k)
  {
    if |s| > 0 {
      var init, last := s[..|s| - 1], s[|s| - 1];
      assert s == init + [last];
      StableSortKeepsTies(init);
      forall k ensures WithPriority(StableSort(s), k) == WithPriority(s, k) {
        StableSortSorted(init);
        InsertKeepsTies(StableSort(init), last, k);
        WithPriorityAppend(init, [last], k);
      }
    }
  }

  /** Insertion splices the new hook in at its insertion point. */
  lemma {:induction false} InsertSplices(s: seq<RegisteredHook>, x: RegisteredHook)
    ensures var i := InsertionPoint(s, x.priority);
            Insert(s, x) == s[..i] + [x] + s[i..]
  {
    if |s| > 0 && s[0].priority >= x.priority {
      InsertSplices(s[1..], x);
      var i := InsertionPoint(s[1..], x.priority);
      assert s[..i + 1] == [s[0]] + s[1..][..i];
      assert s[i + 1..] == s[1..][i..];
    }
  }

  /** Sorting an already sorted list changes nothing. */
  lemma {:induction false} StableSortOfSorted(s: seq<RegisteredHook>)
    requires SortedDesc(s)
    ensures StableSort(s) == s
  {
    if |s| > 0 {
      var init, last := s[..|s| - 1], s[|s| - 1];
      assert SortedDesc(init);
      StableSortOfSorted(init);
      assert StableSort(s) == Insert(init, last);
      assert forall j :: 0 <= j < |init| ==> init[j].priority >= last.priority by {
        forall j | 0 <= j < |init| ensures init[j].priority >= last.priority {
          assert init[j] == s[j];
        }
      }
      InsertAtEnd(init, last);
      assert s == init + [last];
    }
  }

  /** A hook whose priority is at most every other one's goes last. */
  lemma {:induction false} InsertAtEnd(s: seq<RegisteredHook>, x: RegisteredHook)
    requires forall j :: 0 <= j < |s| ==> s[j].priority >= x.priority
    ensures Insert(s, x) == s + [x]
  {
    if |s| > 0 {
      InsertAtEnd(s[1..], x);
      assert s == [s[0]] + s[1..];
    }
  }

  /** Registering on a stack splices the new hook into the stack's sorted
      order, after every hook whose priority is at least its own. */
  lemma WithSplicesIntoSorted(st: Stack, hook: Controller, priority: int, name: Option<string>)
    ensures var sorted := StableSort(st.hooks);
            var i := InsertionPoint(sorted, priority);
            && st.With(hook, priority, name).hooks
               == sorted[..i] + [RegisteredHook.Register(hook, priority, name)] + sorted[i..]
            && (forall j :: 0 <= j < i ==> sorted[j].priority >= priority)
            && (forall j :: i <= j < |sorted| ==> sorted[j].priority < priority)
  {
    var sorted := StableSort(st.hooks);
    WithIsInsert(st, hook, priority, name);
    InsertSplices(sorted, RegisteredHook.Register(hook, priority, name));
    StableSortSorted(st.hooks);
    SortedBelowInsertionPoint(sorted, priority);
  }

  /** Registering is inserting into the sorted receiver. */
  lemma WithIsInsert(st: Stack, hook: Controller, priority: int, name: Option<string>)
    ensures st.With(hook, priority, name).hooks == Insert(StableSort(st.hooks), RegisteredHook.Register(hook, priority, name))
  {
    var all := st.hooks + [RegisteredHook.Register(hook, priority, name)];
    assert all[..|all| - 1] == st.hooks;
  }

  /** In a sorted list, everything from the insertion point on is below `p`. */
  lemma SortedBelowInsertionPoint(s: seq<RegisteredHook>, p: int)
    requires SortedDesc(s)
    ensures forall j :: InsertionPoint(s, p) <= j < |s| ==> s[j].priority < p
  {
  }

  /** On a sorted stack (every stack built by `Empty` and `With`), a new hook
      lands after every hook of priority at least its own and before the rest;
      the existing hooks keep their order. */
  lemma WithOnSortedStack(st: Stack, hook: Controller, priority: int, name: Option<string>)
    requires SortedDesc(st.hooks)
    ensures var i := InsertionPoint(st.hooks, priority);
            && st.With(hook, priority, name).hooks
               == st.hooks[..i] + [RegisteredHook.Register(hook, priority, name)] + st.hooks[i..]
            && (forall j :: 0 <= j < i ==> st.hooks[j].priority >= priority)
            && (forall j :: i <= j < |st.hooks| ==> st.hooks[j].priority < priority)
  {
    StableSortOfSorted(st.hooks);
    WithSplicesIntoSorted(st, hook, priority, name);
  }

  /** A run of pass-through hooks returns its input. */
  lemma {:induction false} PassThroughRunIsIdentity(hooks: seq<RegisteredHook>, stage: Stage, s: AgentSession)
    requires forall j :: 0 <= j < |hooks| ==> hooks[j].hook == PassThrough
    ensures RunHooks(hooks, stage, s) == s
  {
    if |hooks| > 0 {
      PassThroughRunIsIdentity(hooks[1..], stage, s);
    }
  }

  /** Registering a pass-through hook at any priority leaves the stack's
      result what it would be with the stack's hooks in sorted order. */
  lemma WithPassThroughRunsSorted(st: Stack, priority: int, name: Option<string>, stage: Stage, s: AgentSession)
    ensures st.With(PassThrough, priority, name).OnStage(stage, s) == Stack(StableSort(st.hooks)).OnStage(stage, s)
  {
    var sorted := StableSort(st.hooks);
    var i := InsertionPoint(sorted, priority);
    var reg := RegisteredHook.Register(PassThrough, priority, name);
    var pre, post := sorted[..i], sorted[i..];
    WithIsInsert(st, PassThrough, priority, name);
    InsertSplices(sorted, reg);
    var h := st.With(PassThrough, priority, name).hooks;
    assert h == pre + [reg] + post;
    RunSkipsPassThrough(pre, reg, post, stage, s);
    assert pre + post == sorted;
    assert RunHooks(h, stage, s) == RunHooks(sorted, stage, s);
  }

  /** A pass-through hook anywhere in a run can be dropped. */
  lemma RunSkipsPassThrough(pre: seq<RegisteredHook>, reg: RegisteredHook, post: seq<RegisteredHook>, stage: Stage, s: AgentSession)
    requires reg.hook == PassThrough
    ensures RunHooks(pre + [reg] + post, stage, s) == RunHooks(pre + post, stage, s)
  {
    RunHooksAppend(pre + [reg], post, stage, s);
    RunHooksAppend(pre, [reg], stage, s);
    RunHooksAppend(pre, post, stage, s);
    var mid := RunHooks(pre, stage, s);
    assert RunHooks([reg], stage, mid) == mid by {
      assert [reg][1..] == [];
    }
  }

  /** On a sorted stack, adding a pass-through hook at any priority changes
      nothing the stack computes. */
  lemma WithPassThroughInvisible(st: Stack, priority: int, name: Option<string>, stage: Stage, s: AgentSession)
    requires SortedDesc(st.hooks)
    ensures st.With(PassThrough, priority, name).OnStage(stage, s) == st.OnStage(stage, s)
  {
    StableSortOfSorted(st.hooks);
    WithPassThroughRunsSorted(st, priority, name, stage, s);
  }
}
