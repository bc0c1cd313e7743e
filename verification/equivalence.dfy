/** The three encodings are interchangeable to a caller that holds a
    container through the `Value` interface: built with the same scalar and
    the same behaviour, they accept the same operations and read the same
    afterwards, their factories agree draw for draw, and so do their
    benchmarks; the two swappable ones also agree on every sequence of
    operations and swaps. */
module Equivalence {
  import opened Scalars
  import opened Strategies
  import Benchmark
  import Ref = ReferenceSemantics
  import Val = ValueSemantics
  import Tpl = Template

  /** A reference-semantics container with scalar `s` and a strategy of behaviour `b`. */
  function RefOf(s: Scalar, b: Behaviour): (v: Ref.Value)
    ensures v.Observe() == s && v.Behaviour() == b
  {
    match s
    case IntScalar(i) => Ref.Int(Ref.IntValue(i, Ref.IntStrategyFor(b)))
    case FloatScalar(f) => Ref.Float(Ref.FloatValue(f, Ref.FloatStrategyFor(b)))
  }

  /** A value-semantics container with scalar `s` and the stock callable of behaviour `b`. */
  function ValOf(s: Scalar, b: Behaviour): (v: Val.Value)
    ensures v.Observe() == s && v.Has(b)
  {
    match s
    case IntScalar(i) => Val.Int(Val.IntValue(i, Val.IntStrategyFor(b)))
    case FloatScalar(f) => Val.Float(Val.FloatValue(f, Val.FloatStrategyFor(b)))
  }

  /** The template instantiation for the type of `s` and behaviour `b`, holding `s`. */
  function TplOf(s: Scalar, b: Behaviour): (v: Tpl.Value)
    ensures v.Observe() == s && v.Behaviour() == b
  {
    match s
    case IntScalar(i) =>
      if b.Increment? then Tpl.IncrementIntValue(Tpl.IntValue(i)) else Tpl.DecrementIntValue(Tpl.IntValue(i))
    case FloatScalar(f) =>
      if b.Increment? then Tpl.IncrementFloatValue(Tpl.FloatValue(f)) else Tpl.DecrementFloatValue(Tpl.FloatValue(f))
  }

  /** One `Operation()`: the three containers accept it on the same states,
      exactly those without signed overflow, and read the same after it. */
  lemma OperationAgrees(s: Scalar, b: Behaviour)
    ensures RefOf(s, b).CanOperate() <==> Defined(b, s)
    ensures ValOf(s, b).CanOperate() <==> Defined(b, s)
    ensures TplOf(s, b).CanOperate() <==> Defined(b, s)
    ensures Defined(b, s) ==>
      RefOf(s, b).Operation().Observe() == ValOf(s, b).Operation().Observe() &&
      ValOf(s, b).Operation().Observe() == TplOf(s, b).Operation().Observe()
  {
    Ref.CanOperateIff(RefOf(s, b));
    Val.OperationMatchesBehaviour(ValOf(s, b), b);
  }

  /** The factories agree draw for draw: same scalar type, zero, and the
      same reading after one operation. */
  lemma FactoriesAgree(first: bool, second: bool)
    ensures Ref.CreateRandomValue(first, second).Observe() == Val.CreateRandomValue(first, second).Observe()
    ensures Val.CreateRandomValue(first, second).Observe() == Tpl.CreateRandomValue(first, second).Observe()
    ensures Ref.CreateRandomValue(first, second).CanOperate()
    ensures Val.CreateRandomValue(first, second).CanOperate()
    ensures Tpl.CreateRandomValue(first, second).CanOperate()
    ensures Ref.CreateRandomValue(first, second).Operation().Observe()
            == Val.CreateRandomValue(first, second).Operation().Observe()
    ensures Val.CreateRandomValue(first, second).Operation().Observe()
            == Tpl.CreateRandomValue(first, second).Operation().Observe()
  {
    Val.OperationMatchesBehaviour(Val.CreateRandomValue(first, second), BehaviourOf(second));
  }

  /** The three benchmarks, run on the same draws, end with populations that
      read the same element by element. */
  lemma BenchmarksAgree(draws: seq<(bool, bool)>)
    ensures Benchmark.AllAccepted(Benchmark.CreateAll(draws, Ref.CreateRandomValue), Ref.OperateValue)
    ensures Benchmark.AllAccepted(Benchmark.CreateAll(draws, Val.CreateRandomValue), Val.OperateValue)
    ensures Benchmark.AllAccepted(Benchmark.CreateAll(draws, Tpl.CreateRandomValue), Tpl.OperateValue)
    ensures forall i :: 0 <= i < |draws| ==>
      Benchmark.OperateAll(Benchmark.CreateAll(draws, Ref.CreateRandomValue), Ref.OperateValue)[i].Observe()
        == Benchmark.OperateAll(Benchmark.CreateAll(draws, Val.CreateRandomValue), Val.OperateValue)[i].Observe()
    ensures forall i :: 0 <= i < |draws| ==>
      Benchmark.OperateAll(Benchmark.CreateAll(draws, Val.CreateRandomValue), Val.OperateValue)[i].Observe()
        == Benchmark.OperateAll(Benchmark.CreateAll(draws, Tpl.CreateRandomValue), Tpl.OperateValue)[i].Observe()
  {
    Ref.BenchmarkOutcome(draws);
    Val.BenchmarkOutcome(draws);
    Tpl.BenchmarkOutcome(draws);
  }

  /** The reference and value encodings agree on every run of operations and
      swaps from the same start: the same runs are free of overflow, and
      they read the same after every command. */
  lemma RunsAgree(s: Scalar, b: Behaviour, cmds: seq<Command>)
    ensures Ref.Runs(RefOf(s, b), cmds) <==> Val.Runs(ValOf(s, b), cmds)
    ensures Ref.Runs(RefOf(s, b), cmds) ==> Ref.Trace(RefOf(s, b), cmds) == Val.Trace(ValOf(s, b), cmds)
  {
    Ref.TraceRefines(RefOf(s, b), cmds);
    Val.TraceRefines(ValOf(s, b), b, cmds);
  }

  /** The template encoding agrees with the reference one on runs without
      swaps: `n` operations read what the reference container reads after
      `n` `Operate` commands. */
  lemma {:induction false} OperateTimesAgrees(s: Scalar, b: Behaviour, n: nat)
    requires DefinedTimes(b, s, n)
    ensures Ref.Runs(RefOf(s, b), OperateOnly(n))
    ensures n > 0 ==> Ref.Trace(RefOf(s, b), OperateOnly(n))[n - 1] == Tpl.OperateTimes(TplOf(s, b), n).Observe()
    decreases n
  {
    Ref.TraceRefines(RefOf(s, b), OperateOnly(n));
    if n > 0 {
      assert Defined(b, s);
      var next := Apply(b, s);
      assert DefinedTimes(b, next, n - 1);
      assert OperateOnly(n)[1..] == OperateOnly(n - 1);
      OperateTimesAgrees(next, b, n - 1);
      OperationStaysInFamily(s, b);
    }
  }

  /** One operation on a container built with `s` and `b` yields the
      container built with the next scalar and the same behaviour. */
  lemma OperationStaysInFamily(s: Scalar, b: Behaviour)
    requires Defined(b, s)
    ensures RefOf(s, b).CanOperate() && RefOf(s, b).Operation() == RefOf(Apply(b, s), b)
    ensures TplOf(s, b).Operation() == TplOf(Apply(b, s), b)
  {
    Ref.CanOperateIff(RefOf(s, b));
  }

  /** `n` operations and no swap. */
  function OperateOnly(n: nat): (cmds: seq<Command>)
    ensures |cmds| == n
    ensures forall i :: 0 <= i < n ==> cmds[i] == Operate
  {
    seq(n, i => Operate)
  }
}
