/** Strategy with reference semantics: a strategy is an object of one of two
    final classes behind a polymorphic `OperationStrategy<T>` interface, the
    container owns exactly one and can be handed a new one at any time.
    Ownership and virtual dispatch leave no trace here but the current
    strategy, so a strategy is a datatype whose constructors are the
    concrete classes and dispatch is a `match`. */
module ReferenceSemantics {
  import opened Scalars
  import opened Strategies
  import Benchmark

  /** `OperationStrategy<IntValue>` and its two implementations. */
  datatype IntStrategy = IncrementIntValueOperationStrategy | DecrementIntValueOperationStrategy {

    function Behaviour(): Behaviour {
      if IncrementIntValueOperationStrategy? then Increment else Decrement
    }

    /** The call stays clear of signed overflow. */
    predicate Accepts(v: IntValue) {
      if IncrementIntValueOperationStrategy? then v.GetValue() < INT32_MAX
      else v.GetValue() > INT32_MIN
    }

    /** `Operation(IntValue&)`: write back the value plus or minus one. */
    function Operation(v: IntValue): (r: IntValue)
      requires Accepts(v)
      ensures r.operationStrategy == v.operationStrategy
      ensures IntScalar(r.GetValue()) == Apply(Behaviour(), IntScalar(v.GetValue()))
    {
      match this
      case IncrementIntValueOperationStrategy => v.SetValue(v.GetValue() + 1)
      case DecrementIntValueOperationStrategy => v.SetValue(v.GetValue() - 1)
    }
  }

  datatype IntValue = IntValue(value: Int32, operationStrategy: IntStrategy) {

    function GetValue(): Int32 {
      value
    }

    function SetValue(x: Int32): (r: IntValue)
      ensures r.GetValue() == x
      ensures r.operationStrategy == operationStrategy
    {
      this.(value := x)
    }

    /** Replaces the strategy; the value is not touched. */
    function SetOperationStrategy(s: IntStrategy): (r: IntValue)
      ensures r.operationStrategy == s
      ensures r.GetValue() == GetValue()
    {
      this.(operationStrategy := s)
    }

    predicate CanOperate() {
      operationStrategy.Accepts(this)
    }

    /** Delegates to the current strategy, which keeps its place. */
    function Operation(): (r: IntValue)
      requires CanOperate()
      ensures r.operationStrategy == operationStrategy
      ensures IntScalar(r.GetValue()) == Apply(operationStrategy.Behaviour(), IntScalar(GetValue()))
    {
      operationStrategy.Operation(this)
    }
  }

  /** The constructor stores exactly the value and the strategy it is given. */
  function NewIntValue(value: Int32, operationStrategy: IntStrategy): (r: IntValue)
    ensures r.GetValue() == value
    ensures r.operationStrategy == operationStrategy
  {
    IntValue(value, operationStrategy)
  }

  /** The overflow precondition of `Operation`, both directions: it may be
      called exactly when the value is not at the bound the strategy moves
      it towards. */
  lemma IntCanOperateIff(v: IntValue)
    ensures v.CanOperate() <==> Defined(v.operationStrategy.Behaviour(), IntScalar(v.GetValue()))
    ensures v.CanOperate() <==>
      (if v.operationStrategy.IncrementIntValueOperationStrategy? then v.GetValue() != INT32_MAX
       else v.GetValue() != INT32_MIN)
  {
  }

  /** After a swap, `Operation` follows the new strategy alone: swapping and
      operating is operating on a container built with the new strategy, and
      only the last of two swaps counts. */
  lemma SetOperationStrategyReplaces(v: IntValue, s: IntStrategy, t: IntStrategy)
    ensures v.SetOperationStrategy(s) == NewIntValue(v.GetValue(), s)
    ensures v.SetOperationStrategy(s).SetOperationStrategy(t) == v.SetOperationStrategy(t)
    ensures v.SetOperationStrategy(v.operationStrategy) == v
  {
  }

  /** `OperationStrategy<FloatValue>` and its two implementations. */
  datatype FloatStrategy = IncrementFloatValueOperationStrategy | DecrementFloatValueOperationStrategy {

    function Behaviour(): Behaviour {
      if IncrementFloatValueOperationStrategy? then Increment else Decrement
    }

    /** `Operation(FloatValue&)`: write back the value plus or minus 1.0f. */
    function Operation(v: FloatValue): (r: FloatValue)
      ensures r.operationStrategy == v.operationStrategy
      ensures FloatScalar(r.GetValue()) == Apply(Behaviour(), FloatScalar(v.GetValue()))
    {
      match this
      case IncrementFloatValueOperationStrategy => v.SetValue(FloatAddUnit(v.GetValue(), 1))
      case DecrementFloatValueOperationStrategy => v.SetValue(FloatAddUnit(v.GetValue(), -1))
    }
  }

  datatype FloatValue = FloatValue(value: ExactFloat, operationStrategy: FloatStrategy) {

    function GetValue(): ExactFloat {
      value
    }

    function SetValue(x: ExactFloat): (r: FloatValue)
      ensures r.GetValue() == x
      ensures r.operationStrategy == operationStrategy
    {
      this.(value := x)
    }

    /** Replaces the strategy; the value is not touched. */
    function SetOperationStrategy(s: FloatStrategy): (r: FloatValue)
      ensures r.operationStrategy == s
      ensures r.GetValue() == GetValue()
    {
      this.(operationStrategy := s)
    }

    function Operation(): (r: FloatValue)
      ensures r.operationStrategy == operationStrategy
      ensures FloatScalar(r.GetValue()) == Apply(operationStrategy.Behaviour(), FloatScalar(GetValue()))
    {
      operationStrategy.Operation(this)
    }
  }

  function IntStrategyFor(b: Behaviour): (s: IntStrategy)
    ensures s.Behaviour() == b
  {
    if b.Increment? then IncrementIntValueOperationStrategy else DecrementIntValueOperationStrategy
  }

  function FloatStrategyFor(b: Behaviour): (s: FloatStrategy)
    ensures s.Behaviour() == b
  {
    if b.Increment? then IncrementFloatValueOperationStrategy else DecrementFloatValueOperationStrategy
  }

  /** A container held through the `Value` interface: exactly one of the two
      concrete types. */
  datatype Value = Int(intValue: IntValue) | Float(floatValue: FloatValue) {

    function Observe(): Scalar {
      match this
      case Int(v) => IntScalar(v.GetValue())
      case Float(v) => FloatScalar(v.GetValue())
    }

    function Behaviour(): Behaviour {
      match this
      case Int(v) => v.operationStrategy.Behaviour()
      case Float(v) => v.operationStrategy.Behaviour()
    }

    predicate CanOperate() {
      Int? ==> intValue.CanOperate()
    }

    /** The virtual `Operation()`: the scalar moves as the current
        behaviour says, and neither the type nor the behaviour changes. */
    function Operation(): (r: Value)
      requires CanOperate()
      ensures Defined(Behaviour(), Observe())
      ensures r.Observe() == Apply(Behaviour(), Observe())
      ensures r.Behaviour() == Behaviour()
    {
      match this
      case Int(v) => Int(v.Operation())
      case Float(v) => Float(v.Operation())
    }

    /** `SetOperationStrategy` on the concrete container, with a new
        strategy of the same scalar type and behaviour `b`. */
    function SetStrategy(b: Behaviour): (r: Value)
      ensures r.Observe() == Observe()
      ensures r.Behaviour() == b
    {
      match this
      case Int(v) => Int(v.SetOperationStrategy(IntStrategyFor(b)))
      case Float(v) => Float(v.SetOperationStrategy(FloatStrategyFor(b)))
    }
  }

  /** `Operation()` may be called exactly when the reference behaviour is
      defined on the observed scalar. */
  lemma CanOperateIff(v: Value)
    ensures v.CanOperate() <==> Defined(v.Behaviour(), v.Observe())
  {
  }

  /** The factory with its two coin draws made explicit: the first chooses
      int over float, the second Increment over Decrement, and the value
      starts at zero. */
  function CreateRandomValue(first: bool, second: bool): (r: Value)
    ensures r.Observe() == Zero(first)
    ensures r.Behaviour() == BehaviourOf(second)
  {
    if first then
      var operationStrategy := if second then IncrementIntValueOperationStrategy else DecrementIntValueOperationStrategy;
      Int(IntValue(0, operationStrategy))
    else
      var operationStrategy := if second then IncrementFloatValueOperationStrategy else DecrementFloatValueOperationStrategy;
      Float(FloatValue(0, operationStrategy))
  }

  /** Each of the four (type, behaviour) combinations comes from exactly one
      pair of draws. */
  lemma CreateRandomValueCovers(isInt: bool, b: Behaviour)
    ensures CreateRandomValue(isInt, b.Increment?).Observe() == Zero(isInt)
    ensures CreateRandomValue(isInt, b.Increment?).Behaviour() == b
    ensures forall first: bool, second: bool ::
      CreateRandomValue(first, second).Observe().IntScalar? == isInt &&
      CreateRandomValue(first, second).Behaviour() == b
      ==> first == isInt && second == b.Increment?
  {
  }

  /** One transition of the container's state machine. */
  function Execute(v: Value, c: Command): (r: Value)
    requires c.Operate? ==> v.CanOperate()
  {
    match c
    case Operate => v.Operation()
    case SetStrategy(b) => v.SetStrategy(b)
  }

  /** No `Operation()` along the commands overflows. */
  predicate Runs(v: Value, cmds: seq<Command>)
    decreases |cmds|
  {
    |cmds| == 0 ||
    ((cmds[0].Operate? ==> v.CanOperate()) && Runs(Execute(v, cmds[0]), cmds[1..]))
  }

  /** What the unit tests read after each command. */
  function Trace(v: Value, cmds: seq<Command>): (t: seq<Scalar>)
    requires Runs(v, cmds)
    ensures |t| == |cmds|
    decreases |cmds|
  {
    if |cmds| == 0 then []
    else
      var next := Execute(v, cmds[0]);
      [next.Observe()] + Trace(next, cmds[1..])
  }

  /** The container is a faithful implementation of the abstract machine:
      the same commands are defined, and they produce the same readings. */
  lemma {:induction false} TraceRefines(v: Value, cmds: seq<Command>)
    ensures Runs(v, cmds) <==> AbstractRuns(v.Behaviour(), v.Observe(), cmds)
    ensures Runs(v, cmds) ==> Trace(v, cmds) == AbstractTrace(v.Behaviour(), v.Observe(), cmds)
    decreases |cmds|
  {
    if |cmds| > 0 {
      match cmds[0]
      case Operate =>
        if v.CanOperate() {
          TraceRefines(v.Operation(), cmds[1..]);
        }
      case SetStrategy(b) =>
        TraceRefines(v.SetStrategy(b), cmds[1..]);
    }
  }

  /** The unit tests: 0 under Increment, two operations give 1 then 2, the
      swap to Decrement leaves 2, two more give 1 then 0; the same for the
      float container. */
  lemma UnitTestScenario(isInt: bool)
    ensures var v := if isInt then Int(NewIntValue(0, IncrementIntValueOperationStrategy))
                     else Float(FloatValue(0, IncrementFloatValueOperationStrategy));
      Runs(v, SwapScenario) &&
      Trace(v, SwapScenario)
        == [ScalarOf(isInt, 1), ScalarOf(isInt, 2), ScalarOf(isInt, 2), ScalarOf(isInt, 1), ScalarOf(isInt, 0)]
  {
    var v := if isInt then Int(NewIntValue(0, IncrementIntValueOperationStrategy))
             else Float(FloatValue(0, IncrementFloatValueOperationStrategy));
    TraceRefines(v, SwapScenario);
    SwapScenarioReadings(isInt);
  }

  /** `Value::Operation()` as a function value, for the benchmark loop. */
  function OperateValue(v: Value): Value
    requires v.CanOperate()
  {
    v.Operation()
  }

  /** Operating once on each element of any population moves each element's
      scalar by its own behaviour, keeps every behaviour and the length. */
  lemma OperateAllSteps(values: seq<Value>)
    requires forall i :: 0 <= i < |values| ==> values[i].CanOperate()
    ensures Benchmark.AllAccepted(values, OperateValue)
    ensures |Benchmark.OperateAll(values, OperateValue)| == |values|
    ensures forall i :: 0 <= i < |values| ==>
      Benchmark.OperateAll(values, OperateValue)[i].Observe() == Apply(values[i].Behaviour(), values[i].Observe()) &&
      Benchmark.OperateAll(values, OperateValue)[i].Behaviour() == values[i].Behaviour()
  {
  }

  /** The benchmark: every factory-made value can be operated on, and
      afterwards the `i`-th one reads plus or minus one, in the type and
      direction its two draws chose. */
  lemma BenchmarkOutcome(draws: seq<(bool, bool)>)
    ensures Benchmark.AllAccepted(Benchmark.CreateAll(draws, CreateRandomValue), OperateValue)
    ensures |Benchmark.OperateAll(Benchmark.CreateAll(draws, CreateRandomValue), OperateValue)| == |draws|
    ensures forall i :: 0 <= i < |draws| ==>
      Benchmark.OperateAll(Benchmark.CreateAll(draws, CreateRandomValue), OperateValue)[i].Observe()
        == Apply(BehaviourOf(draws[i].1), Zero(draws[i].0))
  {
    var values := Benchmark.CreateAll(draws, CreateRandomValue);
    OperateAllSteps(values);
  }
}
