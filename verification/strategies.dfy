/** What every encoding of the pattern has in common: the two behaviours a
    strategy can have, the observable state of a container (its scalar type
    and its reading), and the reference meaning of one `Operation()` on it.
    The three encodings are each proved to agree with `Apply`. */
module Strategies {
  import opened Scalars

  /** Increment (`value += 1`) or Decrement (`value -= 1`). */
  datatype Behaviour = Increment | Decrement {

    function Step(): int {
      if Increment? then 1 else -1
    }

    function Opposite(): Behaviour {
      if Increment? then Decrement else Increment
    }
  }

  /** The second coin of the factory: true chooses Increment. */
  function BehaviourOf(coin: bool): (b: Behaviour)
    ensures b.Increment? <==> coin
  {
    if coin then Increment else Decrement
  }

  /** What a caller can observe of a container: which scalar type it holds
      and the scalar's current value. */
  datatype Scalar = IntScalar(i: Int32) | FloatScalar(f: ExactFloat)

  /** The initial scalar of every factory-made container; the first coin
      chooses int over float. */
  function Zero(isInt: bool): (s: Scalar)
    ensures s.IntScalar? <==> isInt
  {
    if isInt then IntScalar(0) else FloatScalar(0)
  }

  /** Applying `b` to `s` does not overflow a 32-bit signed integer. */
  predicate Defined(b: Behaviour, s: Scalar) {
    s.IntScalar? ==> InInt32(s.i + b.Step())
  }

  /** The four concrete behaviours: Increment-Int, Decrement-Int,
      Increment-Float and Decrement-Float. */
  function Apply(b: Behaviour, s: Scalar): (r: Scalar)
    requires Defined(b, s)
  {
    match s
    case IntScalar(i) => IntScalar(i + b.Step())
    case FloatScalar(f) => FloatScalar(FloatAddUnit(f, b.Step()))
  }

  /** One application changes the scalar by exactly one unit in the
      behaviour's direction and never changes the scalar type, except that a
      float at 2^24 in that direction stays put. */
  lemma ApplyMovesOneUnit(b: Behaviour, s: Scalar)
    requires Defined(b, s)
    ensures Apply(b, s).IntScalar? == s.IntScalar?
    ensures s.IntScalar? ==> Apply(b, s).i == s.i + b.Step()
    ensures s.FloatScalar? && IsExactFloat(s.f + b.Step()) ==> Apply(b, s).f == s.f + b.Step()
    ensures s.FloatScalar? && !IsExactFloat(s.f + b.Step()) ==> Apply(b, s).f == s.f
  {
  }

  /** The overflow precondition, both directions: an int operation is
      defined exactly when the value is not at the bound it moves towards;
      a float operation is always defined. */
  lemma DefinedIff(b: Behaviour, s: Scalar)
    ensures Defined(b, s) <==>
      (s.IntScalar? && b.Increment? ==> s.i != INT32_MAX) &&
      (s.IntScalar? && b.Decrement? ==> s.i != INT32_MIN)
  {
  }

  /** The float stays on its grid of exact integers and moves one unit unless
      it is already at 2^24 in the direction of travel. */
  predicate Saturates(b: Behaviour, s: Scalar) {
    s.FloatScalar? && !IsExactFloat(s.f + b.Step())
  }

  /** Increment then Decrement (or the reverse) returns to the start, for
      every int that does not overflow and every float off the 2^24 edge. */
  lemma OppositeUndoes(b: Behaviour, s: Scalar)
    requires Defined(b, s) && !Saturates(b, s)
    ensures Defined(b.Opposite(), Apply(b, s))
    ensures Apply(b.Opposite(), Apply(b, s)) == s
  {
  }

  /** At 2^24 the float increment is absorbed by rounding, so the round trip
      of the previous lemma does not extend to the float edge. */
  lemma FloatEdgeBreaksRoundTrip()
    ensures Apply(Increment, FloatScalar(FLOAT_EXACT_LIMIT)) == FloatScalar(FLOAT_EXACT_LIMIT)
    ensures Apply(Decrement, Apply(Increment, FloatScalar(FLOAT_EXACT_LIMIT)))
            != FloatScalar(FLOAT_EXACT_LIMIT)
  {
  }

  /** `n` applications of `b` from `s` never overflow: every intermediate int
      lies between the start and the last result, so the last is enough. */
  predicate DefinedTimes(b: Behaviour, s: Scalar, n: nat) {
    s.IntScalar? ==>
      (b.Increment? ==> s.i + n <= INT32_MAX) &&
      (b.Decrement? ==> s.i - n >= INT32_MIN)
  }

  function Min(x: int, y: int): int {
    if x <= y then x else y
  }

  function Max(x: int, y: int): int {
    if x <= y then y else x
  }

  /** `n` operations in a row under one fixed behaviour, in closed form: an
      int moves by exactly `n`, a float by `n` up to the 2^24 edge. */
  function ApplyTimes(b: Behaviour, s: Scalar, n: nat): (r: Scalar)
    requires DefinedTimes(b, s, n)
    ensures r.IntScalar? == s.IntScalar?
    ensures s.IntScalar? && b.Increment? ==> r.i == s.i + n
    ensures s.IntScalar? && b.Decrement? ==> r.i == s.i - n
    ensures s.FloatScalar? && b.Increment? ==> r.f == Min(s.f + n, FLOAT_EXACT_LIMIT)
    ensures s.FloatScalar? && b.Decrement? ==> r.f == Max(s.f - n, -FLOAT_EXACT_LIMIT)
    decreases n
  {
    if n == 0 then s else ApplyTimes(b, Apply(b, s), n - 1)
  }

  /** The transitions of a container's state machine in the reference and
      value encodings: `Operation()`, or `SetOperationStrategy` with a
      strategy of the given behaviour. */
  datatype Command = Operate | SetStrategy(behaviour: Behaviour)

  /** The state machine every swappable encoding refines: the state is a
      behaviour and a scalar, `Operate` applies the behaviour and
      `SetStrategy` replaces it. A run is defined when no `Operate` on the
      way overflows. */
  predicate AbstractRuns(b: Behaviour, s: Scalar, cmds: seq<Command>)
    decreases |cmds|
  {
    |cmds| == 0 ||
    match cmds[0]
    case Operate => Defined(b, s) && AbstractRuns(b, Apply(b, s), cmds[1..])
    case SetStrategy(next) => AbstractRuns(next, s, cmds[1..])
  }

  /** The scalar observed after each command of a defined run. */
  function AbstractTrace(b: Behaviour, s: Scalar, cmds: seq<Command>): (t: seq<Scalar>)
    requires AbstractRuns(b, s, cmds)
    ensures |t| == |cmds|
    decreases |cmds|
  {
    if |cmds| == 0 then []
    else match cmds[0]
      case Operate => [Apply(b, s)] + AbstractTrace(b, Apply(b, s), cmds[1..])
      case SetStrategy(next) => [s] + AbstractTrace(next, s, cmds[1..])
  }

  /** Swapping the strategy never touches the scalar: at every
      `SetStrategy` of a run the observation equals the one before it. */
  lemma {:induction false} SwapKeepsScalar(b: Behaviour, s: Scalar, cmds: seq<Command>, i: nat)
    requires AbstractRuns(b, s, cmds)
    requires i < |cmds| && cmds[i].SetStrategy?
    ensures AbstractTrace(b, s, cmds)[i] == (if i == 0 then s else AbstractTrace(b, s, cmds)[i - 1])
    decreases |cmds|
  {
    var t := AbstractTrace(b, s, cmds);
    if i > 0 {
      match cmds[0]
      case Operate =>
        SwapKeepsScalar(b, Apply(b, s), cmds[1..], i - 1);
        if i == 1 {
          assert t[0] == Apply(b, s);
        }
      case SetStrategy(next) =>
        SwapKeepsScalar(next, s, cmds[1..], i - 1);
    }
  }

  /** The unit-test scenario shared by the reference and value encodings:
      operate twice, swap to Decrement, operate twice. */
  const SwapScenario: seq<Command> := [Operate, Operate, SetStrategy(Decrement), Operate, Operate]

  /** The scalar with reading `n` in the chosen type. */
  function ScalarOf(isInt: bool, n: int): (s: Scalar)
    requires InInt32(n) && IsExactFloat(n)
    ensures s.IntScalar? == isInt
  {
    if isInt then IntScalar(n) else FloatScalar(n)
  }

  /** The scenario from zero under Increment reads 1, 2, 2, 1, 0, in either
      scalar type. */
  lemma SwapScenarioReadings(isInt: bool)
    ensures AbstractRuns(Increment, Zero(isInt), SwapScenario)
    ensures AbstractTrace(Increment, Zero(isInt), SwapScenario)
            == [ScalarOf(isInt, 1), ScalarOf(isInt, 2), ScalarOf(isInt, 2), ScalarOf(isInt, 1), ScalarOf(isInt, 0)]
  {
    if isInt {
      SwapScenarioSteps(IntScalar(0), IntScalar(1), IntScalar(2));
    } else {
      SwapScenarioSteps(FloatScalar(0), FloatScalar(1), FloatScalar(2));
    }
  }

  /** The scenario from `s0`, given the four single steps it takes. */
  lemma SwapScenarioSteps(s0: Scalar, s1: Scalar, s2: Scalar)
    requires Defined(Increment, s0) && Apply(Increment, s0) == s1
    requires Defined(Increment, s1) && Apply(Increment, s1) == s2
    requires Defined(Decrement, s2) && Apply(Decrement, s2) == s1
    requires Defined(Decrement, s1) && Apply(Decrement, s1) == s0
    ensures AbstractRuns(Increment, s0, SwapScenario)
    ensures AbstractTrace(Increment, s0, SwapScenario) == [s1, s2, s2, s1, s0]
  {
    var cmds := SwapScenario;
    assert AbstractTrace(Decrement, s1, cmds[4..]) == [s0];
    assert AbstractTrace(Decrement, s2, cmds[3..]) == [s1, s0];
    assert AbstractTrace(Increment, s2, cmds[2..]) == [s2, s1, s0];
    assert AbstractTrace(Increment, s1, cmds[1..]) == [s2, s2, s1, s0];
  }
}
