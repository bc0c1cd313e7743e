# Strategy pattern, three ways — a Dafny model

The repository demonstrates the Strategy design pattern on a small numeric
container. An `IntValue` (a 32-bit signed integer) or a `FloatValue` (a `float_t`,
modelled as an IEEE-754 binary32 float) holds a strategy, and `Operation()` hands the container to that
strategy. The strategy either increments the scalar by one or decrements it by
one. The same mechanism is written three ways:

- **reference semantics**: strategies are objects of two final classes behind a
  polymorphic interface. The container owns one and `SetOperationStrategy`
  replaces it.
- **value semantics**: the strategy is a stored callable, either a function
  object or a lambda. It can be replaced the same way.
- **template**: the strategy is a type argument of the container, fixed for
  the instance's lifetime, and there is no setter.

Each variant has a factory `CreateRandomValue` and a benchmark. The factory
draws two random booleans: the first picks int or float, the second picks
increment or decrement, and the value always starts at zero. The benchmark
builds a population of values with the factory and then calls `Operation()`
once on each.

## Layout

- `scalars.dfy` (`Scalars`): `Int32`, and `float_t` as binary32, restricted to the
  integers of magnitude at most 2^24. `FloatAddUnit` is `x ± 1.0f` under
  round-to-nearest-even. It is proved equal to an independent reference,
  `RoundToFloat32`.
- `strategies.dfy` (`Strategies`): the shared vocabulary. It defines the
  `Behaviour` (Increment or Decrement) and the observable `Scalar` (type plus
  reading). `Apply` is the reference meaning of the four concrete behaviours.
  It also holds the n-step closed form and the abstract state machine
  (`Operate` and `SetStrategy`) that the swappable encodings refine.
- `reference_semantics.dfy`, `value_semantics.dfy`, `template.dfy`: one module
  per header. Each has the containers, the strategies, the polymorphic `Value`,
  the factory, the unit-test scenarios and the benchmark outcome.
- `benchmark.dfy` (`Benchmark`): the build loop and the operate-each loop.
  Both are written once for any container type, as functions and as methods
  with loops.
- `equivalence.dfy` (`Equivalence`): the three encodings agree with each other
  on single operations, factories, benchmarks and whole runs.

Modelling choices:

- The random source becomes explicit booleans. The benchmark gets one pair per
  factory call.
- Signed overflow is undefined behaviour in the source language, so an int
  `Operation()` at `INT32_MAX` under Increment, or at `INT32_MIN` under
  Decrement, is excluded by precondition. This is `CanOperate`, and `Defined`
  in the shared module.
- A stored callable of the value-semantics variant is modelled by its effect
  on the scalar. For the int container it is a partial function whose domain
  leaves out the overflowing value. `CanOperate` asks whether the stored
  callable accepts the current value.
- A template instantiation is a phantom type parameter, `IntValue<S>`, and
  each of the four instantiations has its own operation function. The type of
  that function keeps the strategy, so "no setter" holds by typing.

## Model

| member | source | states |
|---|---|---|
| Scalars.FloatAddUnit | referencesemantics_examples.h:102-118 | on integral floats of magnitude at most 2^24, `x ± 1.0f` is the float32 nearest to the exact sum, ties to even (2^24 + 1.0f gives 2^24 back) |
| Strategies.ApplyMovesOneUnit | referencesemantics_examples.h:54-118 | one operation moves the scalar by exactly one unit in the behaviour's direction and keeps its type; the only exception is a float already at the 2^24 edge |
| Strategies.DefinedIff | referencesemantics_examples.h:47-69 | an int operation is free of signed overflow exactly when the value is not at the bound it moves towards; a float operation always is |
| Strategies.OppositeUndoes | referencesemantics_examples.h:54-70 | increment then decrement, or the reverse, returns to the start for every non-overflowing int and every float off the 2^24 edge |
| Strategies.FloatEdgeBreaksRoundTrip | referencesemantics_examples.h:102-118 | at 2^24 the float increment is absorbed, so decrement after increment does not return to the start there |
| Strategies.ApplyTimes | template_examples.h:26-94 | n operations under one fixed behaviour: an int moves by exactly n if no overflow; a float moves by n but stops at ±2^24 |
| Strategies.SwapKeepsScalar | referencesemantics_examples.h:37-40 | in every run of operations and swaps, the reading at a swap equals the reading before it |
| Strategies.SwapScenarioReadings | referencesemantics_examples.h:150-188 | from zero under Increment: operate, operate, swap to Decrement, operate, operate reads 1, 2, 2, 1, 0 in either scalar type |
| Benchmark.CreateAll | referencesemantics_examples.h:199-202 | the built population has one element per factory call, and element i is the factory result for the i-th pair of draws |
| Benchmark.CreateValues | referencesemantics_examples.h:199-202 | the push_back loop builds exactly that population |
| Benchmark.OperateAll | referencesemantics_examples.h:204-207 | after one operation per element, the length is unchanged and element i is element i operated on |
| Benchmark.OperateEach | referencesemantics_examples.h:204-207 | the in-place loop produces that population; after step i, only the first i elements have changed |
| ReferenceSemantics.IntStrategy.Operation | referencesemantics_examples.h:54-70 | each int strategy class moves the value by its behaviour's unit and leaves the container's strategy as it was |
| ReferenceSemantics.IntValue.SetOperationStrategy | referencesemantics_examples.h:37-40 | the new strategy is installed and the value is unchanged |
| ReferenceSemantics.IntValue.Operation | referencesemantics_examples.h:42-45 | delegation moves the value as the current strategy's behaviour says and keeps the strategy |
| ReferenceSemantics.NewIntValue | referencesemantics_examples.h:30-35 | the constructor stores exactly the given value and strategy |
| ReferenceSemantics.IntCanOperateIff | referencesemantics_examples.h:51-69 | Operation may be called exactly when Increment is not at INT32_MAX and Decrement is not at INT32_MIN |
| ReferenceSemantics.SetOperationStrategyReplaces | referencesemantics_examples.h:37-40 | a swap equals constructing with the same value and the new strategy; the last of two swaps wins; swapping in the current strategy changes nothing |
| ReferenceSemantics.FloatStrategy.Operation | referencesemantics_examples.h:102-118 | each float strategy class moves the value by 1.0f in its direction and leaves the strategy as it was |
| ReferenceSemantics.FloatValue.SetOperationStrategy | referencesemantics_examples.h:85-88 | the new strategy is installed and the value is unchanged |
| ReferenceSemantics.FloatValue.Operation | referencesemantics_examples.h:90-93 | delegation moves the value as the current strategy says and keeps the strategy |
| ReferenceSemantics.Value.Operation | referencesemantics_examples.h:9-14 | through the interface, the scalar moves as the current behaviour says and neither the type nor the behaviour changes |
| ReferenceSemantics.Value.SetStrategy | referencesemantics_examples.h:161-162 | swapping on the concrete container keeps the reading and installs the requested behaviour |
| ReferenceSemantics.CanOperateIff | referencesemantics_examples.h:42-69 | Operation through the interface is callable exactly when the reference behaviour is free of overflow |
| ReferenceSemantics.CreateRandomValue | referencesemantics_examples.h:120-146 | the first draw chooses int over float, the second chooses Increment over Decrement, and the value is zero |
| ReferenceSemantics.CreateRandomValueCovers | referencesemantics_examples.h:120-146 | each of the four type/behaviour combinations is produced, and by exactly one pair of draws |
| ReferenceSemantics.TraceRefines | referencesemantics_examples.h:148-188 | any run of operations and swaps is defined exactly when the abstract machine's is, and it reads the same after every command |
| ReferenceSemantics.UnitTestScenario | referencesemantics_examples.h:150-188 | the unit tests: 0, then 1, 2, 2 after the swap, 1, 0, for both the int and the float container |
| ReferenceSemantics.OperateAllSteps | referencesemantics_examples.h:204-207 | operating once on each element of any population moves each element by its own behaviour and keeps each behaviour and the length |
| ReferenceSemantics.BenchmarkOutcome | referencesemantics_examples.h:191-209 | every factory-made value can be operated on, and afterwards element i reads ±1 in the type and direction its draws chose |
| ValueSemantics.NewIntValue | valuesemantics_examples.h:23-28 | the constructor stores exactly the given value and callable |
| ValueSemantics.IntValue.SetOperationStrategy | valuesemantics_examples.h:30-33 | the new callable is stored and the value is unchanged |
| ValueSemantics.IntValue.Operation | valuesemantics_examples.h:35-38 | the stored callable is applied to the value and kept |
| ValueSemantics.IncrementIntValueOperationStrategy | valuesemantics_examples.h:47-54 | the function object accepts every value except INT32_MAX, and adds one |
| ValueSemantics.GetDecrementIntValueOperationStrategy | valuesemantics_examples.h:56-63 | the returned lambda accepts every value except INT32_MIN, and subtracts one |
| ValueSemantics.FloatValue.SetOperationStrategy | valuesemantics_examples.h:78-81 | the new callable is stored and the value is unchanged |
| ValueSemantics.FloatValue.Operation | valuesemantics_examples.h:83-86 | the stored callable is applied to the value and kept |
| ValueSemantics.IncrementFloatValueOperationStrategy | valuesemantics_examples.h:95-102 | the function object adds 1.0f to every value |
| ValueSemantics.GetDecrementFloatValueOperationStrategy | valuesemantics_examples.h:104-111 | the returned lambda subtracts 1.0f from every value |
| ValueSemantics.Value.Operation | valuesemantics_examples.h:10-15 | through the interface, the new reading is the stored callable applied to the old one; the scalar type and the callable are kept |
| ValueSemantics.Value.SetStrategy | valuesemantics_examples.h:140-141 | swapping keeps the reading and stores the stock callable of the requested behaviour |
| ValueSemantics.OperationMatchesBehaviour | valuesemantics_examples.h:35-63 | with a stock callable stored, Operation is callable exactly when the reference behaviour is defined, moves the scalar as that behaviour says, and keeps the callable |
| ValueSemantics.HasAtMostOne | valuesemantics_examples.h:47-63 | the stock callables differ in behaviour, so a container holds the callable of at most one behaviour |
| ValueSemantics.CreateRandomValue | valuesemantics_examples.h:113-125 | the first draw chooses int over float, the second chooses the incrementing function object over the decrementing lambda, and the value is zero |
| ValueSemantics.CreateRandomValueCovers | valuesemantics_examples.h:113-125 | every type/behaviour combination is produced by the draws that name it, and the type follows the first draw alone |
| ValueSemantics.TraceRefines | valuesemantics_examples.h:127-167 | with a stock callable, any run of operations and swaps is defined exactly when the abstract machine's is, and it reads the same after every command |
| ValueSemantics.UnitTestScenario | valuesemantics_examples.h:129-167 | the unit tests: 0, then 1, 2, 2 after the swap, 1, 0, for both the int and the float container |
| ValueSemantics.BenchmarkOutcome | valuesemantics_examples.h:170-188 | every factory-made value can be operated on, and afterwards element i reads ±1 in the type and direction its draws chose |
| Template.IncrementInt | template_examples.h:38-45 | Operation of `IntValue<Increment…>` adds one, under the no-overflow precondition |
| Template.DecrementInt | template_examples.h:47-54 | Operation of `IntValue<Decrement…>` subtracts one, under the no-overflow precondition |
| Template.IncrementFloat | template_examples.h:78-85 | Operation of `FloatValue<Increment…>` adds 1.0f |
| Template.DecrementFloat | template_examples.h:87-94 | Operation of `FloatValue<Decrement…>` subtracts 1.0f |
| Template.IncrementIntTimes | template_examples.h:26-45 | n operations on `IntValue<Increment…>` from v give v + n, provided v + n fits in 32 bits |
| Template.DecrementIntTimes | template_examples.h:26-54 | n operations on `IntValue<Decrement…>` from v give v − n, provided v − n fits in 32 bits |
| Template.UnitTestScenarios | template_examples.h:112-161 | from 0, increment reads 1 then 2 and decrement reads −1 then −2, for int and float |
| Template.Value.Operation | template_examples.h:17-36 | through the interface, the instantiation (and so the strategy) never changes and the scalar moves as its type argument says |
| Template.OperateTimes | template_examples.h:17-36 | n operations keep the strategy and read the n-step closed form |
| Template.CreateRandomValue | template_examples.h:96-110 | the first draw chooses int over float, the second chooses Increment over Decrement, and the value is zero |
| Template.CreateRandomValueCovers | template_examples.h:96-110 | a value is a possible factory result exactly when its scalar is zero: one of four instantiations, each at zero |
| Template.BenchmarkOutcome | template_examples.h:163-181 | every factory-made value can be operated on, and afterwards element i reads ±1 in the type and direction its draws chose |
| Equivalence.OperationAgrees | valuesemantics_examples.h:35-63 | built with the same scalar and behaviour, the three encodings accept Operation on the same states and read the same after it |
| Equivalence.FactoriesAgree | valuesemantics_examples.h:113-125 | the three factories agree draw for draw, before and after one operation |
| Equivalence.BenchmarksAgree | template_examples.h:163-181 | the three benchmarks on the same draws end with populations that read the same, element by element |
| Equivalence.RunsAgree | valuesemantics_examples.h:127-167 | the reference and value encodings agree on every run of operations and swaps: same runs defined, same readings after each command |
| Equivalence.OperateTimesAgrees | template_examples.h:26-29 | n template operations read what the reference container reads after n operations |

Two facts about the code shape the model:

- The int scalar is an `int32_t` field (referencesemantics_examples.h:51,
  valuesemantics_examples.h:44, template_examples.h:35), and signed overflow
  is undefined behaviour. So `Operation()` at `INT32_MAX` under Increment, or
  at `INT32_MIN` under Decrement, is excluded by precondition. No wrap-around
  is modelled.
- The int round trip, increment then decrement or the reverse, returns to
  the start wherever the first step is defined. For integral floats of
  magnitude at most 2^24, the round trip holds except at the 2^24 edge in the
  direction of the first step. At 2^24, adding 1.0f rounds back to 2^24
  (`Strategies.FloatEdgeBreaksRoundTrip`). The same holds at -2^24 when
  decrementing first. For that reason the n-step closed form for floats stops
  at ±2^24 (`Strategies.ApplyTimes`). Off the integers the round trip does not
  hold in general (0.1f + 1.0f - 1.0f is 0.100000024f), and such values
  are outside the model.

## Left out

- `float_t` is fixed to IEEE-754 binary32, its type when `FLT_EVAL_METHOD`
  is 0 (the usual x86-64 and ARM64 setting). Where `FLT_EVAL_METHOD` is 1 or
  2, `float_t` is `double` or `long double`, and 2^24 + 1.0f is exact there.
  The 2^24-edge facts (`Strategies.FloatEdgeBreaksRoundTrip`, the float
  saturation in `Strategies.ApplyTimes`, `Scalars.FloatAddUnit` at 2^24) hold
  only for binary32. The readings the tests and the benchmark reach (0, ±1,
  ±2) are the same in every build.
- Floats are modelled only as integral values of magnitude at most 2^24. That
  set holds every value the factory and the tests produce, and it is closed
  under ±1.0f. Fractions, larger magnitudes, infinities, NaN and −0.0f are not
  modelled, because IEEE-754 arithmetic in general is not part of this model.
- `Random::RandomBool()` is an external source. It is replaced by the boolean
  parameters of the factories and by the sequence of draws in the benchmark.
- The Catch2 test and benchmark framework, timing, and the 50,000 count are left
  out. The unit tests appear as scenario lemmas, and the benchmark as the
  build and operate-each loops over any number of draws.
- Heap ownership (`std::unique_ptr`, moves), virtual dispatch and
  `std::function` storage are left out. For a strategy that is present, they
  are modelled only through which strategy the container holds.
- A null strategy is excluded by construction. In the reference-semantics
  variant, a null `std::unique_ptr` can be passed to the constructor or to
  `SetOperationStrategy`, and the member default is `{}`
  (referencesemantics_examples.h:30-40, 50, 78-88, 98). `Operation()` would
  then dereference null, which is undefined behaviour
  (referencesemantics_examples.h:44, 92). The `IntStrategy` and `FloatStrategy`
  datatypes have no null case.
- `GetValue` and `SetValue` are plain accessors in all three variants and
  carry no rows of their own. `SetValue` is public in every container
  (referencesemantics_examples.h:48, 96; valuesemantics_examples.h:41, 89;
  template_examples.h:32, 72). The model has it as a function, but the run
  alphabet `Command` holds only `Operate` and `SetStrategy`. So `TraceRefines`,
  `SwapKeepsScalar` and `RunsAgree` speak about runs without direct writes of
  the value.
- ValueSemantics.IntValue.SetOperationStrategy: a stored callable is modelled
  only by its effect on the scalar. A callable that touches the container in
  other ways (for example one that swaps the strategy while it runs), or an
  empty `std::function`, is not modelled.
- FloatValue constructors are the datatype constructors; only the int
  constructors of the swappable variants have their own function.
