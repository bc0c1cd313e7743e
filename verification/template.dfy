/** Strategy as a template argument: the container type is parameterised by
    its strategy, so the strategy is fixed for the lifetime of an instance and
    there is no setter. The strategy member is stateless and default
    constructed, so the type parameter is all there is of it: `IntValue<S>`
    holds only its value, and the operation of each of the four
    instantiations is its own function, whose type keeps the strategy. */
module Template {
  import opened Scalars
  import opened Strategies
  import Benchmark

  datatype IncrementIntValueOperationStrategy = IncrementIntValueOperationStrategy
  datatype DecrementIntValueOperationStrategy = DecrementIntValueOperationStrategy
  datatype IncrementFloatValueOperationStrategy = IncrementFloatValueOperationStrategy
  datatype DecrementFloatValueOperationStrategy = DecrementFloatValueOperationStrategy

  /** `IntValue<TOperationStrategy>`; the constructor takes only the value. */
  datatype IntValue<TOperationStrategy> = IntValue(value: Int32) {
    function GetValue(): Int32 {
      value
    }

    /** Overwrites the value; the instantiation, hence the strategy, stays. */
    function SetValue(x: Int32): (r: IntValue<TOperationStrategy>)
      ensures r.GetValue() == x
    {
      IntValue(x)
    }
  }

  /** `FloatValue<TOperationStrategy>`; the constructor takes only the value. */
  datatype FloatValue<TOperationStrategy> = FloatValue(value: ExactFloat) {
    function GetValue(): ExactFloat {
      value
    }

    /** Overwrites the value; the instantiation, hence the strategy, stays. */
    function SetValue(x: ExactFloat): (r: FloatValue<TOperationStrategy>)
      ensures r.GetValue() == x
    {
      FloatValue(x)
    }
  }

  /** `Operation()` of `IntValue<IncrementIntValueOperationStrategy>`. */
  function IncrementInt(v: IntValue<IncrementIntValueOperationStrategy>): (r: IntValue<IncrementIntValueOperationStrategy>)
    requires Defined(Increment, IntScalar(v.GetValue()))
    ensures IntScalar(r.GetValue()) == Apply(Increment, IntScalar(v.GetValue()))
  {
    v.SetValue(v.GetValue() + 1)
  }

  /** `Operation()` of `IntValue<DecrementIntValueOperationStrategy>`. */
  function DecrementInt(v: IntValue<DecrementIntValueOperationStrategy>): (r: IntValue<DecrementIntValueOperationStrategy>)
    requires Defined(Decrement, IntScalar(v.GetValue()))
    ensures IntScalar(r.GetValue()) == Apply(Decrement, IntScalar(v.GetValue()))
  {
    v.SetValue(v.GetValue() - 1)
  }

  /** `Operation()` of `FloatValue<IncrementFloatValueOperationStrategy>`. */
  function IncrementFloat(v: FloatValue<IncrementFloatValueOperationStrategy>): (r: FloatValue<IncrementFloatValueOperationStrategy>)
    ensures FloatScalar(r.GetValue()) == Apply(Increment, FloatScalar(v.GetValue()))
  {
    v.SetValue(FloatAddUnit(v.GetValue(), 1))
  }

  /** `Operation()` of `FloatValue<DecrementFloatValueOperationStrategy>`. */
  function DecrementFloat(v: FloatValue<DecrementFloatValueOperationStrategy>): (r: FloatValue<DecrementFloatValueOperationStrategy>)
    ensures FloatScalar(r.GetValue()) == Apply(Decrement, FloatScalar(v.GetValue()))
  {
    v.SetValue(FloatAddUnit(v.GetValue(), -1))
  }

  /** `n` operations on `IntValue<IncrementIntValueOperationStrategy>` add
      `n`, provided the sum stays a 32-bit integer. */
  function IncrementIntTimes(v: IntValue<IncrementIntValueOperationStrategy>, n: nat): (r: IntValue<IncrementIntValueOperationStrategy>)
    requires v.GetValue() + n <= INT32_MAX
    ensures r.GetValue() == v.GetValue() + n
    decreases n
  {
    if n == 0 then v else IncrementIntTimes(IncrementInt(v), n - 1)
  }

  /** `n` operations on `IntValue<DecrementIntValueOperationStrategy>`
      subtract `n`, provided the difference stays a 32-bit integer. */
  function DecrementIntTimes(v: IntValue<DecrementIntValueOperationStrategy>, n: nat): (r: IntValue<DecrementIntValueOperationStrategy>)
    requires v.GetValue() - n >= INT32_MIN
    ensures r.GetValue() == v.GetValue() - n
    decreases n
  {
    if n == 0 then v else DecrementIntTimes(DecrementInt(v), n - 1)
  }

  /** The unit tests: from 0 the incrementing int reads 1 then 2 and the
      decrementing one -1 then -2; the same for the float instantiations. */
  lemma UnitTestScenarios()
    ensures IncrementInt(IntValue(0)).GetValue() == 1
    ensures IncrementIntTimes(IntValue(0), 2).GetValue() == 2
    ensures DecrementInt(IntValue(0)).GetValue() == -1
    ensures DecrementIntTimes(IntValue(0), 2).GetValue() == -2
    ensures IncrementFloat(FloatValue(0)).GetValue() == 1
    ensures IncrementFloat(IncrementFloat(FloatValue(0))).GetValue() == 2
    ensures DecrementFloat(FloatValue(0)).GetValue() == -1
    ensures DecrementFloat(DecrementFloat(FloatValue(0))).GetValue() == -2
  {
  }

  /** A container held through the `Value` interface: one of the four
      instantiations. */
  datatype Value =
    | IncrementIntValue(incrementInt: IntValue<IncrementIntValueOperationStrategy>)
    | DecrementIntValue(decrementInt: IntValue<DecrementIntValueOperationStrategy>)
    | IncrementFloatValue(incrementFloat: FloatValue<IncrementFloatValueOperationStrategy>)
    | DecrementFloatValue(decrementFloat: FloatValue<DecrementFloatValueOperationStrategy>)
  {

    function Observe(): Scalar {
      match this
      case IncrementIntValue(v) => IntScalar(v.GetValue())
      case DecrementIntValue(v) => IntScalar(v.GetValue())
      case IncrementFloatValue(v) => FloatScalar(v.GetValue())
      case DecrementFloatValue(v) => FloatScalar(v.GetValue())
    }

    /** The behaviour the instantiation's type argument fixes. */
    function Behaviour(): Behaviour {
      if IncrementIntValue? || IncrementFloatValue? then Increment else Decrement
    }

    predicate CanOperate() {
      Defined(Behaviour(), Observe())
    }

    /** The virtual `Operation()`: the scalar moves as the type argument
        says, and the instantiation, hence the strategy, stays. */
    function Operation(): (r: Value)
      requires CanOperate()
      ensures r.IncrementIntValue? == IncrementIntValue?
      ensures r.DecrementIntValue? == DecrementIntValue?
      ensures r.IncrementFloatValue? == IncrementFloatValue?
      ensures r.DecrementFloatValue? == DecrementFloatValue?
      ensures r.Observe() == Apply(Behaviour(), Observe())
    {
      match this
      case IncrementIntValue(v) => IncrementIntValue(IncrementInt(v))
      case DecrementIntValue(v) => DecrementIntValue(DecrementInt(v))
      case IncrementFloatValue(v) => IncrementFloatValue(IncrementFloat(v))
      case DecrementFloatValue(v) => DecrementFloatValue(DecrementFloat(v))
    }
  }

  /** `n` operations in a row: the instantiation never changes, so they all
      use the same strategy and the closed form of `ApplyTimes` applies. */
  function OperateTimes(v: Value, n: nat): (r: Value)
    requires DefinedTimes(v.Behaviour(), v.Observe(), n)
    ensures r.Behaviour() == v.Behaviour()
    ensures r.Observe() == ApplyTimes(v.Behaviour(), v.Observe(), n)
    decreases n
  {
    if n == 0 then v else OperateTimes(v.Operation(), n - 1)
  }

  /** The factory with its two coin draws made explicit: one of exactly four
      instantiations, chosen by the draws, always at zero. */
  function CreateRandomValue(first: bool, second: bool): (r: Value)
    ensures r.Observe() == Zero(first)
    ensures r.Behaviour() == BehaviourOf(second)
  {
    if first then
      if second then IncrementIntValue(IntValue(0)) else DecrementIntValue(IntValue(0))
    else
      if second then IncrementFloatValue(FloatValue(0)) else DecrementFloatValue(FloatValue(0))
  }

  /** The factory is a bijection between the four pairs of draws and the
      four instantiations, each of them at zero. */
  lemma CreateRandomValueCovers(r: Value)
    ensures (exists first: bool, second: bool :: CreateRandomValue(first, second) == r)
            <==> r.Observe() == Zero(r.Observe().IntScalar?)
  {
    if r.Observe() == Zero(r.Observe().IntScalar?) {
      assert CreateRandomValue(r.Observe().IntScalar?, r.Behaviour().Increment?) == r;
    }
  }

  function OperateValue(v: Value): Value
    requires v.CanOperate()
  {
    v.Operation()
  }

  /** The benchmark: every factory-made value can be operated on, and
      afterwards the `i`-th one reads plus or minus one, in the type and
      direction its two draws chose. */
  lemma BenchmarkOutcome(draws: seq<(bool, bool)>)
    ensures Benchmark.AllAccepted(Benchmark.CreateAll(draws, CreateRandomValue), OperateValue)
    ensures |Benchmark.OperateAll(Benchmark.CreateAll(draws, CreateRandomValue), OperateValue)| == |draws|
    ensures forall i :: 0 <= i < |draws| ==>
      Benchmark.OperateAll(Benchmark.CreateAll(draws, CreateRandomValue), OperateValue)[i].Observe()
        == Apply(BehaviourOf(draws[i].1), Zero(draws[i].0))
  {
    var values := Benchmark.CreateAll(draws, CreateRandomValue);
    assert forall i :: 0 <= i < |draws| ==> values[i].CanOperate();
  }
}
