/** The immutable agent values that session hooks transform: the agent state
    (system prompt, message history, metadata) and the session envelope that
    carries it. Every update produces a new value. */
module Agent {

  /** A metadata value as the session hooks store it: a list of strings
      (anything else reads as "not a list"). */
  datatype MetaValue = StrList(items: seq<string>) | Scalar(text: string)

  datatype AgentState = AgentState(
    systemPrompt: string,
    messages: seq<string>,
    metadata: map<string, MetaValue>
  ) {
    /** Replaces the system prompt; everything else is kept. */
    function WithSystemPrompt(prompt: string): (s: AgentState)
      ensures s.systemPrompt == prompt
      ensures s.messages == messages && s.metadata == metadata
    {
      this.(systemPrompt := prompt)
    }

    /** Sets one metadata key; other keys and fields are kept. */
    function WithMetadata(key: string, value: MetaValue): (s: AgentState)
      ensures key in s.metadata && s.metadata[key] == value
      ensures forall k :: k in metadata && k != key ==> k in s.metadata && s.metadata[k] == metadata[k]
      ensures s.metadata.Keys == metadata.Keys + {key}
      ensures s.systemPrompt == systemPrompt && s.messages == messages
    {
      this.(metadata := metadata[key := value])
    }
  }

  datatype AgentSession = AgentSession(sessionId: string, agentName: string, state: AgentState) {
    /** Replaces the state; the session identity is kept. */
    function WithState(next: AgentState): (s: AgentSession)
      ensures s.state == next
      ensures s.sessionId == sessionId && s.agentName == agentName
    {
      this.(state := next)
    }
  }
}
