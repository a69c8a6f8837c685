# Session hooks and execution budget of an agent runtime, in Dafny

This project models three small, pure pieces of the session and budget layer of
the `cognesy/agents` PHP library. It then proves what those pieces promise.

- **Session hook pipeline.** A `SessionHookStack` is an immutable list of
  registered hooks. Each hook is a session controller: a function from a
  lifecycle stage (`AgentSessionStage`) and a session to a new session.
  `with` appends a `RegisteredSessionHook` and stably re-sorts the list by
  descending priority. `onStage` threads the session through the hooks in
  list order, and each hook sees the previous hook's output. The
  `PassThroughSessionController` returns its input unchanged.
- **ExecutionBudget.** A budget has five optional limits. It answers
  `isEmpty` and `isExhausted(now)`, and it serializes to and from a PHP
  array.
- **PlanningSubagentInstructionsHook.** This hook adds a trimmed instruction
  fragment to the system prompt at most once. It does nothing when the
  fragment is blank.

Modules, one per source component:

| file | module | models |
|---|---|---|
| `wrappers.dfy` | `Wrappers` | `Option` (PHP null) and `Result` (thrown errors) |
| `agent.dfy` | `Agent` | the agent state and session values that hooks rewrite |
| `stage.dfy` | `SessionStage` | `AgentSessionStage` and its backing strings |
| `hooks.dfy` | `SessionHooks` | `CanControlAgentSession` implementations, `PassThroughSessionController`, `RegisteredSessionHook` |
| `hook_stack.dfy` | `HookStack` | `SessionHookStack`: stable insertion sort, left fold, and their laws |
| `hook_stack_scenario.dfy` | `HookStackScenario` | the priority-ordering unit test, replayed as lemmas |
| `execution_budget.dfy` | `ExecutionBudget` | `ExecutionBudget` |
| `php_strings.dfy` | `PhpStrings` | PHP `trim` (default character list) and `str_contains` |
| `planning_instructions.dfy` | `PlanningInstructions` | `PlanningSubagentInstructionsHook::handle` |

Modelling choices:

- A session controller is the closed datatype `Controller`. It is either
  `PassThrough` or `Custom(className, run)`. Here `run` is any total function
  `(Stage, AgentSession) -> AgentSession`, and `className` is the PHP
  `::class` identity that `RegisteredSessionHook::name()` falls back to. A
  stack is itself a controller, through `Stack.AsController`.
- PHP 8's `usort` is stable, so `with` is modelled as an insertion sort of
  `hooks + [new]`. Insertion places each hook after every hook of equal or
  higher priority. The public constructor accepts any list, so sortedness is
  not an invariant of every stack. `with` sorts its result whatever order the
  receiver was in. The laws that speak about the receiver's existing order
  assume a sorted receiver, which is what every stack built from `empty()`
  and `with()` is.
- The budget's clock read (`new DateTimeImmutable()`) is an explicit
  `now: int`. `now` and the deadline are integer timestamps in microseconds,
  the resolution at which PHP compares `DateTimeImmutable` values. The float limits
  are `real`, because they are only compared with zero. The ATOM formatter
  and the date parser are function parameters of `ToArray` and `FromArray`.
- `fromArray` runs under `strict_types`. It therefore returns a `Result`. A
  non-integer for `maxSteps`/`maxTokens` fails with `TypeError`. So does a
  non-number for `maxSeconds`/`maxCost`; an integer is still widened to a
  float there. A deadline string that the parser rejects fails with
  `InvalidDeadline`, which stands for the `DateTimeImmutable` constructor
  throwing. The deadline is read before the other fields, as in the source,
  so its error wins.
- The hook context of the instructions hook is `HookContext<X>`. It holds the
  agent state and other data `X` that the hook never reads.

Notes on the source:

- The instructions hook is a `HookInterface` over a hook context. It is not a
  session controller, and it ignores the session stage.
- When the fragment is not blank, the hook always stores the **trimmed**
  current prompt. It does so even when the prompt already contains the
  fragment, so the stored prompt can change in that case.
- `ExecutionBudget` accepts any limit values, zero and negative ones
  included. Such a limit makes the budget exhausted at once.
- The stage enum declares no order between its stages.
- `toArray` writes the deadline in the ATOM format `Y-m-d\TH:i:sP`, which
  keeps whole seconds only, so a deadline with a fraction of a second does
  not survive `fromArray(toArray())`. `RoundTripWholeSeconds` and
  `SubSecondDeadlineLost` state this, and `RoundTripExhaustsNoLater` states
  its consequence: the decoded budget is exhausted no later than the
  original.

## Model

| member | source | states |
|---|---|---|
| SessionStage.FromValue | src/Session/Enums/AgentSessionStage.php:5-11 | a string yields a stage only if it is that stage's backing value; every other string yields none |
| SessionStage.ExactlyFourStages | src/Session/Enums/AgentSessionStage.php:7-10 | there are exactly four stages: AfterLoad, AfterAction, BeforeSave, AfterSave, all distinct |
| SessionStage.ToValueInjective | src/Session/Enums/AgentSessionStage.php:7-10 | two stages have the same backing value iff they are the same stage |
| SessionStage.FromToValue | src/Session/Enums/AgentSessionStage.php:5-11 | reading back a stage's backing value gives that stage |
| Agent.AgentState.WithSystemPrompt | src/Capability/PlanningSubagent/PlanningSubagentInstructionsHook.php:31 | assumed behaviour of `withSystemPrompt`: the prompt is replaced and messages and metadata are kept |
| Agent.AgentState.WithMetadata | tests/Unit/Session/SessionHookStackTest.php:34 | assumed behaviour of `withMetadata`: the key is set to the value, other keys keep their values, and prompt and messages are kept |
| Agent.AgentSession.WithState | tests/Unit/Session/SessionHookStackTest.php:34 | assumed behaviour of `withState` on a session: the state is replaced and the session identity is kept |
| PlanningInstructions.HookContext.WithState | src/Capability/PlanningSubagent/PlanningSubagentInstructionsHook.php:31 | assumed behaviour of `withState` on a hook context: the state is replaced and everything else is kept |
| SessionHooks.Controller.Default | src/Session/PassThroughSessionController.php:11-18 | `default()` is a controller that returns its input session at every stage, with the pass-through class identity |
| SessionHooks.PassThroughIdentity | src/Session/PassThroughSessionController.php:16-18 | pass-through returns its input, the result does not depend on the stage, and pass-through composed with itself is the identity |
| SessionHooks.RegisteredHook.Register | src/Session/RegisteredSessionHook.php:11-19 | a registration keeps exactly the hook, priority and name it was given |
| SessionHooks.RegisteredHook.Name | src/Session/RegisteredSessionHook.php:21-23 | the name is the given name when present, otherwise the wrapped hook's class identity |
| SessionHooks.RegisterDefaults | src/Session/RegisteredSessionHook.php:13-14 | registering without arguments gives priority 0 and the wrapped hook's class as the name |
| SessionHooks.RegisteredDelegates | src/Session/RegisteredSessionHook.php:26-28 | a registered hook behaves exactly as the hook it wraps, whatever its priority and name |
| HookStack.Stack.Empty | src/Session/SessionHookStack.php:18-20 | the empty stack has no hooks and returns every session unchanged at every stage |
| HookStack.Stack.With | src/Session/SessionHookStack.php:22-25 | registering yields a stack exactly one hook longer |
| HookStack.WithPermutes | src/Session/SessionHookStack.php:22-25 | the new stack's hooks are, as a multiset, the old hooks plus the new registered hook |
| HookStack.WithSorted | src/Session/SessionHookStack.php:24 | after registering, hooks are ordered by non-increasing priority, whatever order the receiver was in |
| HookStack.WithStable | src/Session/SessionHookStack.php:23-24 | for every priority, the hooks of that priority keep the receiver's order and the new hook comes after them |
| HookStack.WithOnSortedStack | src/Session/SessionHookStack.php:22-25 | on a sorted stack the new hook is spliced in after every hook of priority at least its own and before all lower ones; the rest keep their order |
| HookStack.WithSplicesIntoSorted | src/Session/SessionHookStack.php:22-25 | on any stack the result is the receiver's hooks in sorted order with the new hook spliced in at its insertion point |
| HookStack.StableSort | src/Session/SessionHookStack.php:24 | sorting keeps the number of hooks |
| HookStack.StableSortSorted | src/Session/SessionHookStack.php:24 | the sort's output is ordered by non-increasing priority |
| HookStack.StableSortPermutes | src/Session/SessionHookStack.php:24 | the sort only reorders: same multiset of hooks |
| HookStack.StableSortKeepsTies | src/Session/SessionHookStack.php:24 | the sort is stable: hooks of equal priority keep their relative order |
| HookStack.StableSortOfSorted | src/Session/SessionHookStack.php:24 | re-sorting an already sorted list changes nothing |
| HookStack.InsertKeepsTies | src/Session/SessionHookStack.php:23-24 | inserting into a sorted list puts the new hook after all hooks of its own priority |
| HookStack.RunHooksAppend | src/Session/SessionHookStack.php:34-40 | running hooks `a + b` equals running `a` and then running `b` on its output |
| HookStack.OnStageLoop | src/Session/SessionHookStack.php:34-40 | the `foreach` loop, in which each hook receives the previous hook's output, computes the left fold of the hooks |
| HookStack.Stack.AsController | src/Session/SessionHookStack.php:9 | a stack is a session controller with the stack's class identity that behaves as the stack's fold |
| HookStack.PassThroughRunIsIdentity | src/Session/PassThroughSessionController.php:16-18 | any sequence of pass-through hooks returns its input |
| HookStack.RunSkipsPassThrough | src/Session/PassThroughSessionController.php:16-18 | a pass-through hook anywhere in a run can be dropped without changing the result |
| HookStack.WithPassThroughRunsSorted | src/Session/SessionHookStack.php:22-40 | registering a pass-through hook at any priority on any stack gives the result of the receiver's hooks in sorted order |
| HookStack.WithPassThroughInvisible | src/Session/SessionHookStack.php:22-40 | on a sorted stack, registering a pass-through hook at any priority leaves `onStage` unchanged |
| HookStackScenario.Mark | tests/Unit/Session/SessionHookStackTest.php:25-35 | the test's marker hook appends its marker to the `order` list at AfterAction and passes the session through at every other stage |
| HookStackScenario.ScenarioOrder | tests/Unit/Session/SessionHookStackTest.php:51-53 | registering low (10) and then high (200) gives the hook order high, low |
| HookStackScenario.HigherPriorityRunsFirst | tests/Unit/Session/SessionHookStackTest.php:51-57 | one AfterAction pass appends exactly `['high', 'low']` to the order list |
| HookStackScenario.EachDriveAppendsOnce | tests/Unit/Session/SessionHookStackTest.php:51-57 | two AfterAction passes append `['high', 'low']` once per pass |
| HookStackScenario.UnsortedStackReorders | src/Session/SessionHookStack.php:14-25 | on a stack built unsorted through the constructor, registering a pass-through hook reorders the existing hooks and so changes what `onStage` does; this is why `WithPassThroughInvisible` needs a sorted receiver |
| HookStackScenario.OtherStagesUntouched | tests/Unit/Session/SessionHookStackTest.php:27-29 | at every other stage the scenario stack returns the session unchanged |
| ExecutionBudget.Unlimited | src/Data/ExecutionBudget.php:23-25 | `unlimited()` is empty and not exhausted at any time |
| ExecutionBudget.EmptyIsUnlimited | src/Data/ExecutionBudget.php:27-33 | a budget is empty iff all five limits are absent, i.e. it equals `unlimited()` |
| ExecutionBudget.IsExhausted | src/Data/ExecutionBudget.php:35-44 | the budget is exhausted iff some present limit is crossed: steps, tokens, seconds or cost at or below zero, or the deadline at or before `now`; absent limits never count |
| ExecutionBudget.EmptyNeverExhausted | src/Data/ExecutionBudget.php:27-44 | an empty budget is never exhausted |
| ExecutionBudget.ExhaustedStaysExhausted | src/Data/ExecutionBudget.php:41 | a budget exhausted at `now` stays exhausted at every later time |
| ExecutionBudget.ToArray | src/Data/ExecutionBudget.php:48-56 | the array has exactly the five keys, each null iff its limit is absent; a present step or token limit is written as that int, a present seconds or cost limit as that float, and a present deadline as the formatter's text |
| ExecutionBudget.ReadInt | src/Data/ExecutionBudget.php:65-66 | a missing or null entry gives null, an int gives that int, and any other value is a type error naming the key |
| ExecutionBudget.ReadFloat | src/Data/ExecutionBudget.php:67-68 | a missing or null entry gives null, a float or an int gives that number, and any other value is a type error naming the key |
| ExecutionBudget.ReadDeadline | src/Data/ExecutionBudget.php:59-62 | only a present string deadline is parsed; a missing, null or non-string deadline gives null; a rejected string is an error |
| ExecutionBudget.FromArray | src/Data/ExecutionBudget.php:58-71 | decoding succeeds iff the deadline is not a string the parser rejects, the step and token entries are missing, null or ints, and the seconds and cost entries are missing, null, ints or floats; on success a missing or null entry gives an absent limit, an int or float entry gives that number, and a string deadline gives what the parser reads; on failure the deadline error comes first, then the type error of the first bad entry in the order maxSteps, maxTokens, maxSeconds, maxCost |
| ExecutionBudget.FromArrayOfNothing | src/Data/ExecutionBudget.php:58-71 | an array without any budget key decodes to the unlimited budget |
| ExecutionBudget.RoundTripKeepsLimits | src/Data/ExecutionBudget.php:48-71 | decoding an encoded budget succeeds and keeps the four numeric limits, keeps an absent deadline absent, and returns a present deadline as the parser reads the formatter's text |
| ExecutionBudget.RoundTrip | src/Data/ExecutionBudget.php:48-71 | when the parser inverts the formatter, decoding an encoded budget returns it exactly |
| ExecutionBudget.WholeSeconds | src/Data/ExecutionBudget.php:54 | dropping the fraction of a second rounds towards the past by less than one second and lands on a whole second |
| ExecutionBudget.RoundTripWholeSeconds | src/Data/ExecutionBudget.php:48-71 | with an ATOM formatter, which keeps whole seconds only, decoding an encoded budget returns it with the deadline truncated to whole seconds and every other limit unchanged |
| ExecutionBudget.SubSecondDeadlineLost | src/Data/ExecutionBudget.php:54-60 | with an ATOM formatter, a deadline with a fraction of a second does not come back exactly |
| ExecutionBudget.RoundTripExhaustsNoLater | src/Data/ExecutionBudget.php:35-71 | with an ATOM formatter, a budget exhausted at `now` decodes to a budget that is also exhausted at `now` |
| PhpStrings.Trim | src/Capability/PlanningSubagent/PlanningSubagentInstructionsHook.php:19 | `trim` removes exactly the leading and trailing runs of PHP's default trim characters: the result has none at either end, is a substring of the input preceded and followed only by trim characters, and is empty iff the input is all trim characters |
| PhpStrings.Contains | src/Capability/PlanningSubagent/PlanningSubagentInstructionsHook.php:27 | `str_contains`: the empty string is contained in every string, a contained string is no longer than its container, and a string of equal length is contained only when the two are equal |
| PhpStrings.ContainsSelf | src/Capability/PlanningSubagent/PlanningSubagentInstructionsHook.php:26-27 | every string contains itself |
| PhpStrings.ContainsSuffix | src/Capability/PlanningSubagent/PlanningSubagentInstructionsHook.php:28 | a string contains each of its suffixes, so the appended fragment is contained |
| PhpStrings.TrimIdempotent | src/Capability/PlanningSubagent/PlanningSubagentInstructionsHook.php:24 | trimming twice is trimming once |
| PhpStrings.TrimOfTrimmed | src/Capability/PlanningSubagent/PlanningSubagentInstructionsHook.php:24 | a string with no trim character at either end is its own trim |
| PlanningInstructions.CombinePrompt | src/Capability/PlanningSubagent/PlanningSubagentInstructionsHook.php:24-29 | the new prompt is the fragment when the trimmed prompt is empty, the trimmed prompt when it already contains the fragment, and otherwise the trimmed prompt, a blank line and the fragment; it always contains the fragment, is trimmed, and starts with the trimmed old prompt |
| PlanningInstructions.Handle | src/Capability/PlanningSubagent/PlanningSubagentInstructionsHook.php:15-32 | a blank fragment returns the context unchanged; messages, metadata and the rest of the context are always carried through; with a non-blank fragment the new prompt follows the three cases of the `match`, contains the trimmed fragment, is trimmed, and begins with the trimmed old prompt |
| PlanningInstructions.CombinePromptIdempotent | src/Capability/PlanningSubagent/PlanningSubagentInstructionsHook.php:24-29 | combining a prompt that already holds the fragment again returns it unchanged |
| PlanningInstructions.HandleIdempotent | src/Capability/PlanningSubagent/PlanningSubagentInstructionsHook.php:24-31 | applying the hook twice gives the same context as applying it once |

## Left out

- Subagent spawning is not modelled: the depth check, tool allow/deny filtering, child isolation and the spawning/completed events. `SpawnSubagentTool` and `SubagentPolicy` are not part of this model. The feature tests only fix examples of them.
- The agent execution loop, drivers, `AgentBuilder`, event dispatch, message and context compilation are not modelled. They are external collaborators, and this model does not include their code.
- `PlanningSubagentToolDescriptor` is not modelled. It is declarative metadata with no behaviour.
- The fields of `AgentSession`, `AgentState` and `HookContext` are reduced to what the hooks read and write. Their classes are not part of this model.
- Reading the system clock, and ATOM date formatting and parsing, are not modelled. `now` is an argument, and the formatter and parser are function parameters.
- ExecutionBudget.RoundTrip: its hypothesis that the parser inverts the formatter does not hold of PHP's ATOM formatter for deadlines with a fraction of a second. For PHP's formatter, `RoundTripWholeSeconds` is the law that applies, and an exact deadline round trip holds only for whole-second deadlines.
- The `with*` methods of `AgentState`, `AgentSession` and `HookContext` are not part of this model. `WithSystemPrompt`, `WithMetadata` and the two `WithState` functions assume that each replaces only its own field and keeps every other field. `Handle`'s carry-through clauses and `HandleIdempotent` rest on that assumption.
- Exceptions thrown by a hook are not modelled. A hook is a total function, so a model run always completes. In PHP, a hook that throws ends the `foreach` of `onStage`: the hooks after it do not run, and the exception escapes `onStage`.
- Floating-point behaviour of `maxSeconds`/`maxCost` beyond the comparison with zero is not modelled. These limits are exact reals.
- `Value` does not model PHP arrays, objects and other types one by one. They are collapsed into `Other`. In a limit entry each such value gives the same type error. In the deadline entry any non-string value, `Other` included, is read as no deadline.
- HookStack.Stack.With: its own contract states only the length. Ordering, permutation and stability are stated by `WithSorted`, `WithPermutes`, `WithStable` and `WithOnSortedStack`.
- HookStack.StableSort: its own contract states only the length. Sortedness, permutation, stability and idempotence on sorted input are the lemmas `StableSortSorted`, `StableSortPermutes`, `StableSortKeepsTies` and `StableSortOfSorted`.
- Immutability is not stated as a lemma. It holds by construction, because every value is an immutable datatype and `with`/`handle` return new values.
