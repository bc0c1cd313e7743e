/** The two phases every benchmark in the repository runs, written once for
    any container type `V`: build one value per factory call, then call
    `Operation()` once on each value, in order. The random source becomes the
    sequence of coin pairs the factory is given, one pair per call. */
module Benchmark {

  /** The population the build loop produces: element `i` is the factory's
      result for the `i`-th pair of coins. */
  function CreateAll<V>(draws: seq<(bool, bool)>, create: (bool, bool) -> V): (values: seq<V>)
    ensures |values| == |draws|
    ensures forall i :: 0 <= i < |draws| ==> values[i] == create(draws[i].0, draws[i].1)
    decreases |draws|
  {
    if |draws| == 0 then []
    else
      var last := draws[|draws| - 1];
      CreateAll(draws[..|draws| - 1], create) + [create(last.0, last.1)]
  }

  /** The build loop: `push_back` of one factory result per iteration. */
  method CreateValues<V>(draws: seq<(bool, bool)>, create: (bool, bool) -> V) returns (values: seq<V>)
    ensures values == CreateAll(draws, create)
  {
    values := [];
    var i := 0;
    while i != |draws|
      invariant 0 <= i <= |draws|
      invariant values == CreateAll(draws[..i], create)
    {
      assert draws[..i + 1][..i] == draws[..i];
      values := values + [create(draws[i].0, draws[i].1)];
      i := i + 1;
    }
    assert draws[..i] == draws;
  }

  /** Every value can take one operation. */
  ghost predicate AllAccepted<V>(values: seq<V>, operation: V --> V) {
    forall i :: 0 <= i < |values| ==> operation.requires(values[i])
  }

  /** The population after one operation on each value: element `i` is
      `values[i]` operated on, and nothing else changes. */
  function OperateAll<V>(values: seq<V>, operation: V --> V): (operated: seq<V>)
    requires AllAccepted(values, operation)
    ensures |operated| == |values|
    ensures forall i :: 0 <= i < |values| ==> operated[i] == operation(values[i])
    decreases |values|
  {
    if |values| == 0 then []
    else [operation(values[0])] + OperateAll(values[1..], operation)
  }

  /** The operation loop, in place: after step `i` the first `i` values have
      been operated on once and the rest are untouched. */
  method OperateEach<V>(values: seq<V>, operation: V --> V) returns (operated: seq<V>)
    requires AllAccepted(values, operation)
    ensures operated == OperateAll(values, operation)
  {
    operated := values;
    for i := 0 to |values|
      invariant |operated| == |values|
      invariant forall j :: 0 <= j < i ==> operated[j] == operation(values[j])
      invariant forall j :: i <= j < |values| ==> operated[j] == values[j]
    {
      operated := operated[i := operation(operated[i])];
    }
  }
}
