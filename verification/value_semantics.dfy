/** Strategy with value semantics: the container stores its strategy as a
    callable value (a function object or a lambda) and can be given another
    one at any time. The callable only reads and writes the container's
    scalar, so it is modelled by its effect on the scalar: a partial function
    for the int container, whose domain leaves out the value that would
    overflow, and a total one for the float container. */
module ValueSemantics {
  import opened Scalars
  import opened Strategies
  import Benchmark

  /** `std::function<void(IntValue&)>`, seen through what it does to the value. */
  type IntOperationStrategy = Int32 --> Int32

  /** `std::function<void(FloatValue&)>`, seen through what it does to the value. */
  type FloatOperationStrategy = ExactFloat -> ExactFloat

  datatype IntValue = IntValue(value: Int32, operationStrategy: IntOperationStrategy) {

    function GetValue(): Int32 {
      value
    }

    /** Overwrites the value; the stored callable is not touched. */
    function SetValue(x: Int32): (r: IntValue)
      ensures r.GetValue() == x
      ensures r.operationStrategy == operationStrategy
    {
      this.(value := x)
    }

    /** Replaces the stored callable; the value is not touched. */
    function SetOperationStrategy(s: IntOperationStrategy): (r: IntValue)
      ensures r.operationStrategy == s
      ensures r.GetValue() == GetValue()
    {
      this.(operationStrategy := s)
    }

    /** The stored callable accepts the current value. */
    ghost predicate CanOperate() {
      operationStrategy.requires(value)
    }

    /** Calls the stored callable on the container, which keeps it. */
    function Operation(): (r: IntValue)
      requires CanOperate()
      ensures r.operationStrategy == operationStrategy
      ensures r.GetValue() == operationStrategy(GetValue())
    {
      this.(value := operationStrategy(value))
    }
  }

  /** The constructor stores exactly the value and the callable it is given. */
  function NewIntValue(value: Int32, operationStrategy: IntOperationStrategy): (r: IntValue)
    ensures r.GetValue() == value
    ensures r.operationStrategy == operationStrategy
  {
    IntValue(value, operationStrategy)
  }

  /** The call operator of the `IncrementIntValueOperationStrategy` function
      object. */
  function AddOne(x: Int32): Int32
    requires x < INT32_MAX
  {
    x + 1
  }

  /** The body of the lambda `GetDecrementIntValueOperationStrategy` returns. */
  function SubtractOne(x: Int32): Int32
    requires x > INT32_MIN
  {
    x - 1
  }

  /** A default-constructed `IncrementIntValueOperationStrategy`, stored as a
      callable: defined on every value but the maximum, and adds one there. */
  function IncrementIntValueOperationStrategy(): (s: IntOperationStrategy)
    ensures forall x: Int32 :: s.requires(x) <==> Defined(Increment, IntScalar(x))
    ensures forall x: Int32 :: s.requires(x) ==> IntScalar(s(x)) == Apply(Increment, IntScalar(x))
  {
    AddOne
  }

  /** The decrementing lambda: defined on every value but the minimum, and
      subtracts one there. */
  function GetDecrementIntValueOperationStrategy(): (s: IntOperationStrategy)
    ensures forall x: Int32 :: s.requires(x) <==> Defined(Decrement, IntScalar(x))
    ensures forall x: Int32 :: s.requires(x) ==> IntScalar(s(x)) == Apply(Decrement, IntScalar(x))
  {
    SubtractOne
  }

  datatype FloatValue = FloatValue(value: ExactFloat, operationStrategy: FloatOperationStrategy) {

    function GetValue(): ExactFloat {
      value
    }

    /** Overwrites the value; the stored callable is not touched. */
    function SetValue(x: ExactFloat): (r: FloatValue)
      ensures r.GetValue() == x
      ensures r.operationStrategy == operationStrategy
    {
      this.(value := x)
    }

    /** Replaces the stored callable; the value is not touched. */
    function SetOperationStrategy(s: FloatOperationStrategy): (r: FloatValue)
      ensures r.operationStrategy == s
      ensures r.GetValue() == GetValue()
    {
      this.(operationStrategy := s)
    }

    function Operation(): (r: FloatValue)
      ensures r.operationStrategy == operationStrategy
      ensures r.GetValue() == operationStrategy(GetValue())
    {
      this.(value := operationStrategy(value))
    }
  }

  /** The call operator of `IncrementFloatValueOperationStrategy`. */
  function AddOneFloat(x: ExactFloat): ExactFloat {
    FloatAddUnit(x, 1)
  }

  /** The body of the lambda `GetDecrementFloatValueOperationStrategy` returns. */
  function SubtractOneFloat(x: ExactFloat): ExactFloat {
    FloatAddUnit(x, -1)
  }

  function IncrementFloatValueOperationStrategy(): (s: FloatOperationStrategy)
    ensures forall x: ExactFloat :: FloatScalar(s(x)) == Apply(Increment, FloatScalar(x))
  {
    AddOneFloat
  }

  function GetDecrementFloatValueOperationStrategy(): (s: FloatOperationStrategy)
    ensures forall x: ExactFloat :: FloatScalar(s(x)) == Apply(Decrement, FloatScalar(x))
  {
    SubtractOneFloat
  }

  function IntStrategyFor(b: Behaviour): IntOperationStrategy {
    if b.Increment? then IncrementIntValueOperationStrategy() else GetDecrementIntValueOperationStrategy()
  }

  function FloatStrategyFor(b: Behaviour): FloatOperationStrategy {
    if b.Increment? then IncrementFloatValueOperationStrategy() else GetDecrementFloatValueOperationStrategy()
  }

  /** A container held through the `Value` interface. */
  datatype Value = Int(intValue: IntValue) | Float(floatValue: FloatValue) {

    function Observe(): Scalar {
      match this
      case Int(v) => IntScalar(v.GetValue())
      case Float(v) => FloatScalar(v.GetValue())
    }

    ghost predicate CanOperate() {
      Int? ==> intValue.CanOperate()
    }

    /** The virtual `Operation()`: the stored callable is applied and kept. */
    function Operation(): (r: Value)
      requires CanOperate()
      ensures r.Observe().IntScalar? == Observe().IntScalar?
      ensures Int? ==> r.Observe() == IntScalar(intValue.operationStrategy(intValue.GetValue()))
      ensures Float? ==> r.Observe() == FloatScalar(floatValue.operationStrategy(floatValue.GetValue()))
      ensures Int? ==> r.intValue.operationStrategy == intValue.operationStrategy
      ensures Float? ==> r.floatValue.operationStrategy == floatValue.operationStrategy
    {
      match this
      case Int(v) => Int(v.Operation())
      case Float(v) => Float(v.Operation())
    }

    /** `SetOperationStrategy` on the concrete container with the stock
        callable of behaviour `b`. */
    function SetStrategy(b: Behaviour): (r: Value)
      ensures r.Observe() == Observe()
      ensures r.Has(b)
    {
      match this
      case Int(v) => Int(v.SetOperationStrategy(IntStrategyFor(b)))
      case Float(v) => Float(v.SetOperationStrategy(FloatStrategyFor(b)))
    }

    /** The stored callable is the stock one of behaviour `b`. */
    ghost predicate Has(b: Behaviour) {
      match this
      case Int(v) => v.operationStrategy == IntStrategyFor(b)
      case Float(v) => v.operationStrategy == FloatStrategyFor(b)
    }
  }

  /** With a stock callable stored, `Operation()` is exactly the reference
      behaviour: callable exactly when that is defined, the scalar moves as
      it says, and the callable stays. */
  lemma OperationMatchesBehaviour(v: Value, b: Behaviour)
    requires v.Has(b)
    ensures v.CanOperate() <==> Defined(b, v.Observe())
    ensures v.CanOperate() ==> v.Operation().Observe() == Apply(b, v.Observe()) && v.Operation().Has(b)
  {
  }

  /** The stock callables can be told apart by what they do, so a container
      holds the stock callable of at most one behaviour. */
  lemma HasAtMostOne(v: Value, b: Behaviour, c: Behaviour)
    requires v.Has(b) && v.Has(c)
    ensures b == c
  {
    match v
    case Int(iv) =>
      assert iv.operationStrategy.requires(INT32_MAX) <==> b.Decrement?;
      assert iv.operationStrategy.requires(INT32_MAX) <==> c.Decrement?;
    case Float(fv) =>
      assert fv.operationStrategy(0) == b.Step();
      assert fv.operationStrategy(0) == c.Step();
  }

  /** The factory with its two coin draws made explicit: the first chooses
      int over float, the second the function object over the lambda, and
      the value starts at zero. */
  function CreateRandomValue(first: bool, second: bool): (r: Value)
    ensures r.Observe() == Zero(first)
    ensures r.Has(BehaviourOf(second))
  {
    if first then
      Int(IntValue(0, if second then IncrementIntValueOperationStrategy() else GetDecrementIntValueOperationStrategy()))
    else
      Float(FloatValue(0, if second then IncrementFloatValueOperationStrategy() else GetDecrementFloatValueOperationStrategy()))
  }

  /** Each of the four (type, behaviour) combinations is produced by the
      draws that name it, and the type follows the first draw alone. */
  lemma CreateRandomValueCovers(isInt: bool, b: Behaviour)
    ensures CreateRandomValue(isInt, b.Increment?).Observe() == Zero(isInt)
    ensures CreateRandomValue(isInt, b.Increment?).Has(b)
    ensures forall first: bool, second: bool ::
      CreateRandomValue(first, second).Observe().IntScalar? <==> first
  {
  }

  function Execute(v: Value, c: Command): Value
    requires c.Operate? ==> v.CanOperate()
  {
    match c
    case Operate => v.Operation()
    case SetStrategy(b) => v.SetStrategy(b)
  }

  /** No call along the commands falls outside its callable's domain. */
  ghost predicate Runs(v: Value, cmds: seq<Command>)
    decreases |cmds|
  {
    |cmds| == 0 ||
    ((cmds[0].Operate? ==> v.CanOperate()) && Runs(Execute(v, cmds[0]), cmds[1..]))
  }

  /** What the unit tests read after each command. */
  function Trace(v: Value, cmds: seq<Command>): (t: seq<Scalar>)
    requires Runs(v, cmds)
    ensures |t| == |cmds|
    decreases |cmds|
  {
    if |cmds| == 0 then []
    else
      var next := Execute(v, cmds[0]);
      [next.Observe()] + Trace(next, cmds[1..])
  }

  /** A container holding a stock callable implements the abstract machine:
      the same commands are defined and produce the same readings. */
  lemma {:induction false} TraceRefines(v: Value, b: Behaviour, cmds: seq<Command>)
    requires v.Has(b)
    ensures Runs(v, cmds) <==> AbstractRuns(b, v.Observe(), cmds)
    ensures Runs(v, cmds) ==> Trace(v, cmds) == AbstractTrace(b, v.Observe(), cmds)
    decreases |cmds|
  {
    OperationMatchesBehaviour(v, b);
    if |cmds| > 0 {
      match cmds[0]
      case Operate =>
        if v.CanOperate() {
          TraceRefines(v.Operation(), b, cmds[1..]);
        }
      case SetStrategy(next) =>
        TraceRefines(v.SetStrategy(next), next, cmds[1..]);
    }
  }

  /** The unit tests: 0 with the incrementing function object, two
      operations give 1 then 2, the swap to the decrementing lambda leaves 2,
      two more give 1 then 0; the same for the float container. */
  lemma UnitTestScenario(isInt: bool)
    ensures var v := if isInt then Int(NewIntValue(0, IncrementIntValueOperationStrategy()))
                     else Float(FloatValue(0, IncrementFloatValueOperationStrategy()));
      Runs(v, SwapScenario) &&
      Trace(v, SwapScenario)
        == [ScalarOf(isInt, 1), ScalarOf(isInt, 2), ScalarOf(isInt, 2), ScalarOf(isInt, 1), ScalarOf(isInt, 0)]
  {
    var v := if isInt then Int(NewIntValue(0, IncrementIntValueOperationStrategy()))
             else Float(FloatValue(0, IncrementFloatValueOperationStrategy()));
    TraceRefines(v, Increment, SwapScenario);
    SwapScenarioReadings(isInt);
  }

  function OperateValue(v: Value): Value
    requires v.CanOperate()
  {
    v.Operation()
  }

  /** The benchmark: every factory-made value can be operated on, and
      afterwards the `i`-th one reads plus or minus one, in the type and
      direction its two draws chose. */
  lemma BenchmarkOutcome(draws: seq<(bool, bool)>)
    ensures Benchmark.AllAccepted(Benchmark.CreateAll(draws, CreateRandomValue), OperateValue)
    ensures |Benchmark.OperateAll(Benchmark.CreateAll(draws, CreateRandomValue), OperateValue)| == |draws|
    ensures forall i :: 0 <= i < |draws| ==>
      Benchmark.OperateAll(Benchmark.CreateAll(draws, CreateRandomValue), OperateValue)[i].Observe()
        == Apply(BehaviourOf(draws[i].1), Zero(draws[i].0))
  {
    var values := Benchmark.CreateAll(draws, CreateRandomValue);
    forall i | 0 <= i < |draws|
      ensures values[i].CanOperate()
      ensures OperateValue(values[i]).Observe() == Apply(BehaviourOf(draws[i].1), Zero(draws[i].0))
    {
      OperationMatchesBehaviour(values[i], BehaviourOf(draws[i].1));
    }
  }
}
