/** Resource limits for one agent execution. Every limit is optional and an
    absent limit means "unbounded". The clock is an explicit `now` argument;
    `now` and the deadline are integer timestamps in microseconds, the
    resolution at which `DateTimeImmutable` values compare. The ATOM date
    formatter and parser used for serialization are passed in as functions. */
module ExecutionBudget {
  import opened Wrappers

  datatype Budget = Budget(
    maxSteps: Option<int>,
    maxTokens: Option<int>,
    maxSeconds: Option<real>,
    maxCost: Option<real>,
    deadline: Option<int>
  )

  /** The five limit dimensions of a budget. */
  datatype Dimension = Steps | Tokens | Seconds | Cost | Deadline

  /** `ExecutionBudget::unlimited()`: no limit at all. */
  function Unlimited(): (b: Budget)
    ensures IsEmpty(b)
    ensures forall now :: !IsExhausted(b, now)
  {
    Budget(None, None, None, None, None)
  }

  /** True iff no limit is set. */
  predicate IsEmpty(b: Budget) {
    && b.maxSteps.None?
    && b.maxTokens.None?
    && b.maxSeconds.None?
    && b.maxCost.None?
    && b.deadline.None?
  }

  /** Whether dimension `d` is limited and that limit has been reached at `now`. */
  predicate Crossed(b: Budget, d: Dimension, now: int) {
    match d
    case Steps => b.maxSteps.Some? && b.maxSteps.value <= 0
    case Tokens => b.maxTokens.Some? && b.maxTokens.value <= 0
    case Seconds => b.maxSeconds.Some? && b.maxSeconds.value <= 0.0
    case Cost => b.maxCost.Some? && b.maxCost.value <= 0.0
    case Deadline => b.deadline.Some? && b.deadline.value <= now
  }

  /** `isExhausted()`: the first matching arm of the source's `match (true)`,
      with the clock reading passed as `now`. */
  function IsExhausted(b: Budget, now: int): (r: bool)
    ensures r <==> exists d :: Crossed(b, d, now)
  {
    if b.maxSteps.Some? && b.maxSteps.value <= 0 then
      assert Crossed(b, Steps, now); true
    else if b.maxTokens.Some? && b.maxTokens.value <= 0 then
      assert Crossed(b, Tokens, now); true
    else if b.maxSeconds.Some? && b.maxSeconds.value <= 0.0 then
      assert Crossed(b, Seconds, now); true
    else if b.maxCost.Some? && b.maxCost.value <= 0.0 then
      assert Crossed(b, Cost, now); true
    else if b.deadline.Some? && b.deadline.value <= now then
      assert Crossed(b, Deadline, now); true
    else
      false
  }

  /** A budget with no limits can never be exhausted. */
  lemma EmptyNeverExhausted(b: Budget, now: int)
    requires IsEmpty(b)
    ensures !IsExhausted(b, now)
  {
  }

  /** The empty budgets are exactly the unlimited one. */
  lemma EmptyIsUnlimited(b: Budget)
    ensures IsEmpty(b) <==> b == Unlimited()
  {
  }

  /** Exhaustion is monotone in time: once exhausted, always exhausted. */
  lemma ExhaustedStaysExhausted(b: Budget, now: int, later: int)
    requires now <= later
    requires IsExhausted(b, now)
    ensures IsExhausted(b, later)
  {
    var d :| Crossed(b, d, now);
    assert Crossed(b, d, later);
  }

  // SERIALIZATION

  /** A PHP array value as the serialized form of a budget holds it; `Other`
      stands for arrays, objects and any other PHP type by name. */
  datatype Value = Null | Int(i: int) | Float(f: real) | Str(text: string) | Bool(flag: bool) | Other(typeName: string)

  /** Why `fromArray` throws: a strict-types `TypeError` on a constructor
      argument, or a deadline string the date parser rejects. */
  datatype DecodeError = TypeError(key: string) | InvalidDeadline(text: string)

  const Keys: set<string> := {"maxSteps", "maxTokens", "maxSeconds", "maxCost", "deadline"}

  function IntValue(o: Option<int>): Value {
    match o
    case Some(n) => Int(n)
    case None => Null
  }

  function FloatValue(o: Option<real>): Value {
    match o
    case Some(x) => Float(x)
    case None => Null
  }

  /** `toArray()`: one entry per limit, null for an absent one, the deadline
      written by `format`. */
  function ToArray(b: Budget, format: int -> string): (data: map<string, Value>)
    ensures data.Keys == Keys
    ensures data["maxSteps"].Null? <==> b.maxSteps.None?
    ensures data["maxTokens"].Null? <==> b.maxTokens.None?
    ensures data["maxSeconds"].Null? <==> b.maxSeconds.None?
    ensures data["maxCost"].Null? <==> b.maxCost.None?
    ensures data["deadline"].Null? <==> b.deadline.None?
    ensures b.maxSteps.Some? ==> data["maxSteps"] == Int(b.maxSteps.value)
    ensures b.maxTokens.Some? ==> data["maxTokens"] == Int(b.maxTokens.value)
    ensures b.maxSeconds.Some? ==> data["maxSeconds"] == Float(b.maxSeconds.value)
    ensures b.maxCost.Some? ==> data["maxCost"] == Float(b.maxCost.value)
    ensures b.deadline.Some? ==> data["deadline"] == Str(format(b.deadline.value))
  {
    map[
      "maxSteps" := IntValue(b.maxSteps),
      "maxTokens" := IntValue(b.maxTokens),
      "maxSeconds" := FloatValue(b.maxSeconds),
      "maxCost" := FloatValue(b.maxCost),
      "deadline" := match b.deadline
                    case Some(t) => Str(format(t))
                    case None => Null
    ]
  }

  /** `$data[$key] ?? null` passed to a `?int` parameter under strict types. */
  function ReadInt(data: map<string, Value>, key: string): (r: Result<Option<int>, DecodeError>)
    ensures r.Success? && r.value.None? <==> key !in data || data[key].Null?
    ensures r.Success? && r.value.Some? <==> key in data && data[key].Int?
    ensures r.Success? && r.value.Some? ==> data[key] == Int(r.value.value)
    ensures r.Failure? ==> r.error == TypeError(key)
  {
    if key !in data then Success(None)
    else match data[key]
      case Null => Success(None)
      case Int(n) => Success(Some(n))
      case _ => Failure(TypeError(key))
  }

  /** `$data[$key] ?? null` passed to a `?float` parameter under strict types,
      where an int is still widened to a float. */
  function ReadFloat(data: map<string, Value>, key: string): (r: Result<Option<real>, DecodeError>)
    ensures r.Success? && r.value.None? <==> key !in data || data[key].Null?
    ensures r.Success? && r.value.Some? ==>
              key in data && (data[key] == Float(r.value.value) || (data[key].Int? && data[key].i as real == r.value.value))
    ensures r.Failure? <==> key in data && !(data[key].Null? || data[key].Int? || data[key].Float?)
    ensures r.Failure? ==> r.error == TypeError(key)
  {
    if key !in data then Success(None)
    else match data[key]
      case Null => Success(None)
      case Int(n) => Success(Some(n as real))
      case Float(x) => Success(Some(x))
      case _ => Failure(TypeError(key))
  }

  /** The deadline: parsed when `isset` and a string, otherwise null. */
  function ReadDeadline(data: map<string, Value>, parse: string -> Option<int>): (r: Result<Option<int>, DecodeError>)
    ensures !("deadline" in data && data["deadline"].Str?) ==> r == Success(None)
    ensures "deadline" in data && data["deadline"].Str? ==>
              r == (match parse(data["deadline"].text)
                    case Some(t) => Success(Some(t))
                    case None => Failure(InvalidDeadline(data["deadline"].text)))
  {
    if "deadline" in data && data["deadline"].Str? then
      match parse(data["deadline"].text)
      case Some(t) => Success(Some(t))
      case None => Failure(InvalidDeadline(data["deadline"].text))
    else Success(None)
  }

  /** Whether `$data[$key] ?? null` is accepted by a strict `?int` parameter. */
  predicate IntEntryOk(data: map<string, Value>, key: string) {
    key !in data || data[key].Null? || data[key].Int?
  }

  /** Whether `$data[$key] ?? null` is accepted by a strict `?float` parameter. */
  predicate FloatEntryOk(data: map<string, Value>, key: string) {
    key !in data || data[key].Null? || data[key].Int? || data[key].Float?
  }

  /** Whether the deadline entry is a string the date parser rejects. */
  predicate DeadlineRejected(data: map<string, Value>, parse: string -> Option<int>) {
    "deadline" in data && data["deadline"].Str? && parse(data["deadline"].text).None?
  }

  /** `ExecutionBudget::fromArray($data)`: the deadline is read first, then
      the constructor arguments in declaration order, so the first bad entry
      in that order decides the error. */
  function FromArray(data: map<string, Value>, parse: string -> Option<int>): (r: Result<Budget, DecodeError>)
    ensures r.Success? <==>
              && !DeadlineRejected(data, parse)
              && IntEntryOk(data, "maxSteps") && IntEntryOk(data, "maxTokens")
              && FloatEntryOk(data, "maxSeconds") && FloatEntryOk(data, "maxCost")
    ensures r.Success? ==> (r.value.maxSteps.None? <==> "maxSteps" !in data || data["maxSteps"].Null?)
    ensures r.Success? ==> (r.value.maxTokens.None? <==> "maxTokens" !in data || data["maxTokens"].Null?)
    ensures r.Success? ==> (r.value.maxSeconds.None? <==> "maxSeconds" !in data || data["maxSeconds"].Null?)
    ensures r.Success? ==> (r.value.maxCost.None? <==> "maxCost" !in data || data["maxCost"].Null?)
    ensures r.Success? ==> (r.value.deadline.Some? <==> "deadline" in data && data["deadline"].Str?)
    ensures r.Success? && "maxSteps" in data && data["maxSteps"].Int? ==>
              r.value.maxSteps == Some(data["maxSteps"].i)
    ensures r.Success? && "maxTokens" in data && data["maxTokens"].Int? ==>
              r.value.maxTokens == Some(data["maxTokens"].i)
    ensures r.Success? && "maxSeconds" in data && data["maxSeconds"].Int? ==>
              r.value.maxSeconds == Some(data["maxSeconds"].i as real)
    ensures r.Success? && "maxSeconds" in data && data["maxSeconds"].Float? ==>
              r.value.maxSeconds == Some(data["maxSeconds"].f)
    ensures r.Success? && "maxCost" in data && data["maxCost"].Int? ==>
              r.value.maxCost == Some(data["maxCost"].i as real)
    ensures r.Success? && "maxCost" in data && data["maxCost"].Float? ==>
              r.value.maxCost == Some(data["maxCost"].f)
    ensures r.Success? && "deadline" in data && data["deadline"].Str? ==>
              r.value.deadline == parse(data["deadline"].text)
    ensures DeadlineRejected(data, parse) ==> r == Failure(InvalidDeadline(data["deadline"].text))
    ensures !DeadlineRejected(data, parse) && !IntEntryOk(data, "maxSteps") ==>
              r == Failure(TypeError("maxSteps"))
    ensures !DeadlineRejected(data, parse) && IntEntryOk(data, "maxSteps") && !IntEntryOk(data, "maxTokens") ==>
              r == Failure(TypeError("maxTokens"))
    ensures !DeadlineRejected(data, parse) && IntEntryOk(data, "maxSteps") && IntEntryOk(data, "maxTokens")
            && !FloatEntryOk(data, "maxSeconds") ==>
              r == Failure(TypeError("maxSeconds"))
    ensures !DeadlineRejected(data, parse) && IntEntryOk(data, "maxSteps") && IntEntryOk(data, "maxTokens")
            && FloatEntryOk(data, "maxSeconds") && !FloatEntryOk(data, "maxCost") ==>
              r == Failure(TypeError("maxCost"))
  {
    var deadline :- ReadDeadline(data, parse);
    var maxSteps :- ReadInt(data, "maxSteps");
    var maxTokens :- ReadInt(data, "maxTokens");
    var maxSeconds :- ReadFloat(data, "maxSeconds");
    var maxCost :- ReadFloat(data, "maxCost");
    Success(Budget(maxSteps, maxTokens, maxSeconds, maxCost, deadline))
  }

  /** A map without any budget key decodes to the unlimited budget. */
  lemma FromArrayOfNothing(data: map<string, Value>, parse: string -> Option<int>)
    requires data.Keys !! Keys
    ensures FromArray(data, parse) == Success(Unlimited())
  {
  }

  /** Serializing then deserializing keeps the four numeric limits and an
      absent deadline; a present deadline comes back as whatever the parser
      reads from the formatter's text. */
  lemma RoundTripKeepsLimits(b: Budget, format: int -> string, parse: string -> Option<int>)
    requires b.deadline.Some? ==> parse(format(b.deadline.value)).Some?
    ensures var r := FromArray(ToArray(b, format), parse);
            && r.Success?
            && r.value.maxSteps == b.maxSteps
            && r.value.maxTokens == b.maxTokens
            && r.value.maxSeconds == b.maxSeconds
            && r.value.maxCost == b.maxCost
            && (b.deadline.None? ==> r.value.deadline.None?)
            && (b.deadline.Some? ==> r.value.deadline == parse(format(b.deadline.value)))
  {
  }

  /** When the parser inverts the formatter, the round trip is exact. */
  lemma RoundTrip(b: Budget, format: int -> string, parse: string -> Option<int>)
    requires forall t :: parse(format(t)) == Some(t)
    ensures FromArray(ToArray(b, format), parse) == Success(b)
  {
    if b.deadline.Some? {
      var t := b.deadline.value;
      var text := format(t);
      assert parse(text) == Some(t);
    }
    RoundTripKeepsLimits(b, format, parse);
  }

  const MicrosPerSecond := 1_000_000

  /** A timestamp with its fraction of a second dropped, rounding towards the
      past, as the ATOM format `Y-m-d\TH:i:sP` writes it. */
  function WholeSeconds(t: int): (w: int)
    ensures w <= t < w + MicrosPerSecond
    ensures w % MicrosPerSecond == 0
  {
    t / MicrosPerSecond * MicrosPerSecond
  }

  /** A formatter/parser pair that behaves as ATOM: the text keeps whole
      seconds only. */
  ghost predicate AtomLike(format: int -> string, parse: string -> Option<int>) {
    forall t :: parse(format(t)) == Some(WholeSeconds(t))
  }

  /** With an ATOM-like formatter the round trip keeps every limit except
      that the deadline loses its fraction of a second. */
  lemma RoundTripWholeSeconds(b: Budget, format: int -> string, parse: string -> Option<int>)
    requires AtomLike(format, parse)
    ensures FromArray(ToArray(b, format), parse)
            == Success(b.(deadline := if b.deadline.Some? then Some(WholeSeconds(b.deadline.value)) else None))
  {
    if b.deadline.Some? {
      var t := b.deadline.value;
      assert parse(format(t)) == Some(WholeSeconds(t));
    }
    RoundTripKeepsLimits(b, format, parse);
  }

  /** So an exact round trip fails for a deadline with a fraction of a second. */
  lemma SubSecondDeadlineLost(b: Budget, format: int -> string, parse: string -> Option<int>)
    requires AtomLike(format, parse)
    requires b.deadline.Some? && b.deadline.value % MicrosPerSecond != 0
    ensures FromArray(ToArray(b, format), parse) != Success(b)
  {
    RoundTripWholeSeconds(b, format, parse);
  }

  /** The decoded budget is exhausted no later than the original: truncating
      the deadline only moves it earlier. */
  lemma RoundTripExhaustsNoLater(b: Budget, format: int -> string, parse: string -> Option<int>, now: int)
    requires AtomLike(format, parse)
    requires IsExhausted(b, now)
    ensures FromArray(ToArray(b, format), parse).Success?
    ensures IsExhausted(FromArray(ToArray(b, format), parse).value, now)
  {
    RoundTripWholeSeconds(b, format, parse);
    var d :| Crossed(b, d, now);
    assert Crossed(FromArray(ToArray(b, format), parse).value, d, now);
  }
}
