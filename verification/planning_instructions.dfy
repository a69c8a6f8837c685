/** The planning subagent's instructions hook: it adds a fixed instruction
    fragment to the agent's system prompt at most once, and does nothing when
    the fragment is blank. The hook context carries the agent state plus data
    the hook never touches, left abstract as `X`. */
module PlanningInstructions {
  import opened Agent
  import opened PhpStrings

  datatype HookContext<X> = HookContext(state: AgentState, other: X) {
    /** Replaces the state; everything else is kept. */
    function WithState(next: AgentState): (c: HookContext<X>)
      ensures c.state == next && c.other == other
    {
      this.(state := next)
    }
  }

  const Separator: string := "\n\n"

  /** The new system prompt for a trimmed, non-blank `fragment`: the fragment
      alone when the trimmed prompt is empty, the trimmed prompt when it
      already contains the fragment, otherwise both separated by a blank line. */
  function CombinePrompt(current: string, fragment: string): (prompt: string)
    requires fragment != [] && IsTrimmed(fragment)
    ensures Trim(current) == [] ==> prompt == fragment
    ensures Trim(current) != [] && Contains(Trim(current), fragment) ==> prompt == Trim(current)
    ensures Trim(current) != [] && !Contains(Trim(current), fragment) ==> prompt == Trim(current) + Separator + fragment
    ensures Contains(prompt, fragment)
    ensures IsTrimmed(prompt)
    ensures |Trim(current)| <= |prompt| && prompt[..|Trim(current)|] == Trim(current)
  {
    var trimmed := Trim(current);
    if trimmed == [] then
      ContainsSelf(fragment);
      fragment
    else if Contains(trimmed, fragment) then
      trimmed
    else
      ContainsSuffix(trimmed + Separator, fragment);
      JoinTrimmed(trimmed, fragment);
      trimmed + Separator + fragment
  }

  /** Joining two non-empty trimmed strings with the separator gives a
      trimmed string that starts with the first. */
  lemma JoinTrimmed(a: string, b: string)
    requires a != [] && IsTrimmed(a) && b != [] && IsTrimmed(b)
    ensures IsTrimmed(a + Separator + b)
    ensures (a + Separator + b)[..|a|] == a
  {
    var j := a + Separator + b;
    assert j[0] == a[0];
    assert j[|j| - 1] == b[|b| - 1];
  }

  /** `handle($context)`. A blank fragment leaves the context untouched.
      Otherwise only the system prompt changes: it becomes the fragment, the
      trimmed old prompt when that already contains the fragment, or the
      trimmed old prompt, a blank line and the fragment. Whichever it is, the
      new prompt is trimmed, contains the fragment and begins with the
      trimmed old prompt. */
  function Handle<X>(instructions: string, context: HookContext<X>): (r: HookContext<X>)
    ensures Trim(instructions) == [] ==> r == context
    ensures r.other == context.other
    ensures r.state.messages == context.state.messages
    ensures r.state.metadata == context.state.metadata
    ensures Trim(instructions) != [] ==>
              var fragment := Trim(instructions);
              var before := Trim(context.state.systemPrompt);
              var prompt := r.state.systemPrompt;
              && (before == [] ==> prompt == fragment)
              && (before != [] && Contains(before, fragment) ==> prompt == before)
              && (before != [] && !Contains(before, fragment) ==> prompt == before + Separator + fragment)
              && Contains(prompt, fragment)
              && IsTrimmed(prompt)
              && |before| <= |prompt| && prompt[..|before|] == before
  {
    var fragment := Trim(instructions);
    if fragment == [] then context
    else
      var prompt := CombinePrompt(context.state.systemPrompt, fragment);
      context.WithState(context.state.WithSystemPrompt(prompt))
  }

  /** Combining a prompt with a fragment it already holds changes nothing. */
  lemma {:induction false} CombinePromptIdempotent(current: string, fragment: string)
    requires fragment != [] && IsTrimmed(fragment)
    ensures CombinePrompt(CombinePrompt(current, fragment), fragment) == CombinePrompt(current, fragment)
  {
    var prompt := CombinePrompt(current, fragment);
    TrimOfTrimmed(prompt);
    assert prompt != [] by {
      var i :| 0 <= i <= |prompt| && OccursAt(prompt, fragment, i);
    }
  }

  /** Applying the hook twice gives the same context as applying it once. */
  lemma {:induction false} HandleIdempotent<X>(instructions: string, context: HookContext<X>)
    ensures Handle(instructions, Handle(instructions, context)) == Handle(instructions, context)
  {
    var fragment := Trim(instructions);
    if fragment != [] {
      CombinePromptIdempotent(context.state.systemPrompt, fragment);
    }
  }

}
