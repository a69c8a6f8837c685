/** Session controllers: anything that can transform a session at a stage.
    The PHP interface has one method, `onStage(stage, session)`; here the set
    of implementations is closed: the pass-through controller and custom
    controllers given by their class identity and their behaviour. */
module SessionHooks {
  import opened Wrappers
  import opened Agent
  import opened SessionStage

  /** The class identity of the pass-through controller. */
  const PassThroughClass: string := "Cognesy\\Agents\\Session\\PassThroughSessionController"

  datatype Controller =
    | PassThrough
    | Custom(className: string, run: (Stage, AgentSession) -> AgentSession)
  {
    /** The controller's type identity (PHP's `$hook::class`). */
    function ClassName(): string {
      match this
      case PassThrough => PassThroughClass
      case Custom(c, _) => c
    }

    /** Runs the controller at `stage`. */
    function OnStage(stage: Stage, session: AgentSession): AgentSession {
      match this
      case PassThrough => session
      case Custom(_, f) => f(stage, session)
    }

    /** `PassThroughSessionController::default()`. */
    static function Default(): (c: Controller)
      ensures forall stage, s :: c.OnStage(stage, s) == s
      ensures c.ClassName() == PassThroughClass
    {
      PassThrough
    }
  }

  /** A controller registered in a hook stack, with its priority (higher runs
      first) and an optional display name. */
  datatype RegisteredHook = RegisteredHook(hook: Controller, priority: int, name: Option<string>) {

    /** `new RegisteredSessionHook($hook, $priority = 0, $name = null)`. */
    static function Register(hook: Controller, priority: int := 0, name: Option<string> := None): (r: RegisteredHook)
      ensures r.hook == hook && r.priority == priority && r.name == name
    {
      RegisteredHook(hook, priority, name)
    }

    /** The display name: the given name, or else the wrapped hook's class. */
    function Name(): (n: string)
      ensures name.Some? ==> n == name.value
      ensures name.None? ==> n == hook.ClassName()
    {
      name.GetOr(hook.ClassName())
    }

    /** Delegates to the wrapped controller. */
    function OnStage(stage: Stage, session: AgentSession): AgentSession {
      hook.OnStage(stage, session)
    }
  }

  /** Registering without a priority gives priority 0 and no explicit name,
      so the name is the wrapped hook's class. */
  lemma RegisterDefaults(hook: Controller)
    ensures RegisteredHook.Register(hook).priority == 0
    ensures RegisteredHook.Register(hook).Name() == hook.ClassName()
  {
  }

  /** Wrapping adds no behaviour: a registered hook acts exactly as its hook,
      whatever its priority and name. */
  lemma RegisteredDelegates(hook: Controller, priority: int, name: Option<string>, stage: Stage, s: AgentSession)
    ensures RegisteredHook.Register(hook, priority, name).OnStage(stage, s) == hook.OnStage(stage, s)
  {
  }

  /** The pass-through controller returns its input, whatever the stage, and
      so does it composed with itself. */
  lemma PassThroughIdentity(stage: Stage, other: Stage, s: AgentSession)
    ensures PassThrough.OnStage(stage, s) == s
    ensures PassThrough.OnStage(stage, s) == PassThrough.OnStage(other, s)
    ensures PassThrough.OnStage(other, PassThrough.OnStage(stage, s)) == s
  {
  }
}
