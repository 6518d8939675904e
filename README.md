# mxws and the birthday experiment, in Dafny

This project models two sequential pieces of C++: the `mxws` bit generator
and the `Birthday_Probability` simulation, which uses it to estimate shared
birthday probabilities. The project proves properties of both.

- `cppint.dfy` (module `CppInt`) holds the C++ integer types the code relies on.
  - A `uint64_t` is a `Word` of two 32-bit halves, with its number `Value`.
  - Words support the carrying addition, the multiplication modulo 2^64, the
    rotation by 32, the shift by 32 and the or of disjoint bits.
  - The integral conversions follow C++20: to an unsigned type modulo 2^N,
    and to `int` by the low 32 bits in two's complement.
- `mxws.dfy` (module `BitGenerator`) models the engine.
  - Its pure transition functions are `Advance`/`Output` over a `State` of the
    six words `x, w, x1, x2, w1, w2`, split into the lanes `(x, w)`,
    `(x1, w1)` and `(x2, w2)`.
  - The class `Mxws` has those six fields and one method per constructor,
    initialiser and draw. Each method ensures its new state through
    `Snapshot()`.
  - The template argument `RN` is the constant field `rn: Width` (`U32` or
    `U64`).
- `birthday.dfy` (module `BirthdayProbability`) models the simulation.
  - The whole sweep reads one stream of days: what successive calls of
    `rng(Ndays - 1)` pick.
  - Spec functions describe that stream from a trial's first position on:
    `Count`, `Histogram`, `FirstReach`, `TrialOutcome`, `Trials`, `SweepTo`.
  - The methods run the C++ loops over a real `Mxws` and a real `array` of
    counters, and are proved equal to those functions.
  - The constants `Ndays`, `TRIALS`, `Npeople_with_same_birthday` (K) and the
    sweep bounds 2..100 are fields of a `Config`. `SourceConfig` holds the
    source's values.

A trial stops at the draw that brings some counter to K. The short-circuit
does not change whether the trial counts as successful
(`ShortCircuitEquivalence`). It does change which draws the later trials
see: the model consumes exactly `DrawsMade` draws per trial, as the code
does.

## Model

| member | source | states |
|---|---|---|
| CppInt.FromValue | mxws.hpp:15 | every `uint64_t` value is the number of the word built from its two halves |
| CppInt.ValueInjective | mxws.hpp:15 | two words with the same number are the same word, so a word is its value |
| CppInt.Add64Value | mxws.hpp:76 | the half-wise addition with carry is `+` on `uint64_t`, i.e. modulo 2^64 |
| CppInt.RotateRight32Value | mxws.hpp:85 | swapping the halves is `std::rotr(v, 32)`, i.e. `(v >> 32) \| (v << 32)` on the number |
| CppInt.ShiftLeft32Value | mxws.hpp:92 | moving the low half up is `v << 32`, i.e. multiplying by 2^32 modulo 2^64 |
| CppInt.OrValue | mxws.hpp:31 | or-ing a 32-bit value into a word whose low half is zero adds it |
| CppInt.ToUnsigned | mxws.hpp:129 | the conversion to `RN` is below 2^N, congruent to its argument modulo 2^N, and keeps a value already in range |
| CppInt.ToInt | mxws.hpp:129 | the conversion of the remainder back to `int` gives an `int`, congruent modulo 2^32, equal when the value fits |
| BitGenerator.AdvanceLanes | mxws.hpp:72-93 | the 32-bit draw steps `(x, w)` alone and returns the high half of `x * w` (the low half of the new `x`); the 64-bit draw steps `(x1, w1)` and `(x2, w2)` each from itself alone and leaves `(x, w)` |
| BitGenerator.Output | mxws.hpp:72-93 | a draw's value is below 2^N for the chosen `RN` |
| BitGenerator.OutputBounds | mxws.hpp:69-70 | every draw lies between `min()` and `max()` |
| BitGenerator.Output64Lanes | mxws.hpp:92 | the 64-bit value has the low half of the new `x1` on top and the low half of the new `x2` below |
| BitGenerator.Run32Lanes | mxws.hpp:76 | after any number of 32-bit draws, `(x, w)` has run that many steps and `(x1, w1)`, `(x2, w2)` are unchanged |
| BitGenerator.Run64Lanes | mxws.hpp:84-90 | after any number of 64-bit draws each of `(x1, w1)` and `(x2, w2)` has run alone that many steps, and `(x, w)` is unchanged |
| BitGenerator.TwoLanesMakeAWord | mxws.hpp:84-92 | draw j of a 64-bit engine is draw j of 32-bit engines started on `(x1, w1)` and `(x2, w2)`, side by side |
| BitGenerator.StuckStep | mxws.hpp:76 | a lane step with `x` or `w` zero gives `x = 0` and delivers 0 |
| BitGenerator.StuckLane | mxws.hpp:76 | a lane with `x` or `w` zero stays at `x = 0` and delivers 0 for ever |
| BitGenerator.ZeroSeedIsStuck | mxws.hpp:25-40 | seed sequence {0, 0}: the 32-bit engine delivers only zeros and the 64-bit one only values below 2^32 |
| BitGenerator.AllOnesSeedWrapsW2 | mxws.hpp:31-35 | seed sequence {0xFFFFFFFF, 0xFFFFFFFF} gives `w = 2^64 - 1`, so `w2 = w1 + 1` wraps to 0 |
| BitGenerator.AllOnesSeedIsStuck | mxws.hpp:31-36 | seed sequence {0xFFFFFFFF, 0xFFFFFFFF}: `w2 = w1 + 1` wraps to 0, so the low half of every 64-bit value is 0 |
| BitGenerator.UpTo | mxws.hpp:125-130 | `operator()(max)` with `T = int` lies in `[0, max]` and equals the draw modulo `max + 1` whenever `max >= 0` |
| BitGenerator.Between | mxws.hpp:132-137 | `operator()(min, max)` with `T = int` lies in `[min, max]` and is `min` plus the draw modulo `max - min + 1` whenever `min <= max` |
| BitGenerator.BetweenWraps | mxws.hpp:136 | adding the offset to `min` in `RN` (with `min` converted modulo 2^N) and converting back to `int` gives `min` plus the offset |
| BitGenerator.WrapsIn32 | mxws.hpp:136 | the same for a 32-bit `RN` |
| BitGenerator.WrapsIn64 | mxws.hpp:136 | the same for a 64-bit `RN` |
| BitGenerator.Glue | mxws.hpp:54 | `(uint64_t(hi) << 32) \| lo` is the word with halves `hi` and `lo` |
| BitGenerator.EntropyState | mxws.hpp:52-59 | `init()` gives `w` = the two entropy words and `x = x1 = x2 = 1`, `w1 = w`, `w2 = w1 + 1` |
| BitGenerator.SeedSeqState | mxws.hpp:25-40 | with two seed values, `w` = (first << 32) \| second, and the other words as after `init()`; with any other count, exactly `init()` |
| BitGenerator.Reseeded | mxws.hpp:61-65 | `init(seed)` sets `w` to the seed and `x` to 1 and leaves both lanes `(x1, w1)`, `(x2, w2)` alone |
| BitGenerator.Mxws.constructor | mxws.hpp:42-45 | `mxws()` is in the state `init()` builds |
| BitGenerator.Mxws.FromSeedSeq | mxws.hpp:25-40 | `mxws(seed_seq)` is in the state `SeedSeqState` gives |
| BitGenerator.Mxws.FromSeed | mxws.hpp:47-50 | `mxws(uint64_t)` ignores its argument and is in the state `init()` builds |
| BitGenerator.Mxws.Init | mxws.hpp:52-59 | `init()` sets all six fields to `EntropyState` |
| BitGenerator.Mxws.Seed | mxws.hpp:19-23 | `seed()` leaves the fields as `init()` does |
| BitGenerator.Mxws.InitWith | mxws.hpp:61-65 | `init(seed)` changes the state as `Reseeded` says |
| BitGenerator.Mxws.NextUint32 | mxws.hpp:72-78 | the 32-bit `operator()()` moves the fields to `Advance32` and returns `Output32` of the old state |
| BitGenerator.Mxws.NextUint64 | mxws.hpp:80-93 | the 64-bit `operator()()` moves the fields to `Advance64` and returns `Output64` of the old state |
| BitGenerator.Mxws.Next | mxws.hpp:129 | `(*this)()` is the `operator()()` that `RN` selects |
| BitGenerator.Mxws.Draws | mxws.hpp:72-93 | n successive draws leave the engine at `Run(n)` and return `Outputs(n)` |
| BitGenerator.Mxws.NextUpTo | mxws.hpp:125-130 | `operator()(max)` advances once and returns `UpTo` of the draw, in `[0, max]` for `max >= 0` |
| BitGenerator.Mxws.NextBetween | mxws.hpp:132-137 | `operator()(min, max)` advances once and returns `Between` of the draw, in `[min, max]` for `min <= max` |
| BitGenerator.Replay | mxws.hpp:25-37 | two engines built from the same two-value seed sequence deliver the same values, whatever their entropy devices hold |
| BirthdayProbability.Birthday | Birthday_Probability.cpp:38 | `rng(Ndays - 1)` always picks an index in `[0, Ndays - 1]` |
| BirthdayProbability.SweepDaysDrawn | Birthday_Probability.cpp:38 | the days of the sweep are the ones the engine picks as it passes through its states |
| BirthdayProbability.DrawnInRange | Birthday_Probability.cpp:38 | every day of the stream is a valid index of `birthdays` (bounds safety) |
| BirthdayProbability.CountIsMultiplicity | Birthday_Probability.cpp:35-38 | the count of a day is its multiplicity in the multiset of the draws |
| BirthdayProbability.HistogramCounts | Birthday_Probability.cpp:38 | each counter holds the number of draws of its day |
| BirthdayProbability.HistogramStep | Birthday_Probability.cpp:38 | `++birthdays[d]` turns the counters of n draws into those of n + 1, and `birthdays[d]` is then the count of d |
| BirthdayProbability.HistogramSum | Birthday_Probability.cpp:35-38 | conservation: the counters add up to the number of draws made |
| BirthdayProbability.FewerThanThreshold | Birthday_Probability.cpp:38 | fewer than K draws cannot put K on one day |
| BirthdayProbability.ShortCircuitEquivalence | Birthday_Probability.cpp:35-41 | the early-exit flag is true exactly when some day holds at least K of all `people` draws |
| BirthdayProbability.FirstReachExtends | Birthday_Probability.cpp:38-40 | draws after the stopping one change nothing |
| BirthdayProbability.FirstReachAt | Birthday_Probability.cpp:38-40 | the stopping draw is the first to reach K, and none before it does |
| BirthdayProbability.FirstReachIsFirst | Birthday_Probability.cpp:38-40 | the trial stops at the first draw after which some day occurs K times, and not earlier |
| BirthdayProbability.BelowThreshold | Birthday_Probability.cpp:38 | while the loop has not stopped, every day's count is below K |
| BirthdayProbability.CountersBelow | Birthday_Probability.cpp:38 | while the loop has not stopped, every counter is below K |
| BirthdayProbability.CountersAtStop | Birthday_Probability.cpp:38-40 | at the stopping draw its day's counter is exactly K and no counter exceeds K |
| BirthdayProbability.TrialCounters | Birthday_Probability.cpp:34-42 | after a trial the counters sum to the draws made, none passes K, one equals K exactly when a shared birthday was found, and otherwise all `people` draws were made and every counter is below K |
| BirthdayProbability.TrialStops | Birthday_Probability.cpp:34-42 | the way the drawing loop leaves fixes the draws made, the flag (in both directions) and the counters as in `TrialCounters` |
| BirthdayProbability.FewerNeverStop | Birthday_Probability.cpp:35-41 | with fewer people than K the loop never breaks |
| BirthdayProbability.FewPeopleNoShare | Birthday_Probability.cpp:34-42 | with fewer people than K no trial finds a shared birthday |
| BirthdayProbability.TrialsBounds | Birthday_Probability.cpp:31-44 | `0 <= successfulTrials <= TRIALS`, and it stays 0 for groups smaller than K |
| BirthdayProbability.SweepToRecords | Birthday_Probability.cpp:29-46 | one record per group size, in ascending order from the first size, each count in `[0, TRIALS]` and 0 below K |
| BirthdayProbability.SourceConfigValid | Birthday_Probability.cpp:18-29 | the source's constants lie in the modelled range, and their sweep covers the 99 sizes 2 to 100 |
| BirthdayProbability.ClearDays | Birthday_Probability.cpp:33 | after the clearing loop every counter is 0 |
| BirthdayProbability.Increment | Birthday_Probability.cpp:38 | `++birthdays[d]` adds one to counter d and changes no other |
| BirthdayProbability.DrawOne | Birthday_Probability.cpp:38 | one pass draws the next day of the stream, advances the engine one state, and leaves the counters of one more draw |
| BirthdayProbability.DrawBirthdays | Birthday_Probability.cpp:34-42 | the drawing loop makes `made` draws, stops exactly at the first draw that reaches K (or after all), and leaves those draws' counters |
| BirthdayProbability.Trial | Birthday_Probability.cpp:33-43 | a trial's flag and draws are `TrialOutcome`, the flag is `Reaches`, and the counters satisfy conservation, the cap K and flag correctness |
| BirthdayProbability.RunTrials | Birthday_Probability.cpp:31-44 | the `TRIALS` loop yields `successfulTrials` as `Trials` of the stream and leaves the engine where the trials stopped |
| BirthdayProbability.SweepGroups | Birthday_Probability.cpp:29-51 | the group-size loop yields `SweepTo` of the stream: one record per size in ascending order, with counts in `[0, TRIALS]` |
| BirthdayProbability.BirthdayProbability | Birthday_Probability.cpp:16-51 | the whole simulation, from the engine `mxws()` builds, yields `Sweep` of its stream, one record per group size with the properties above |

## Left out

- `std::random_device` (mxws.hpp:11, 54) is not modelled. Its two words are parameters `hi`, `lo` of every operation that would read it. C++ leaves the order of the two `r()` calls unspecified, so `hi` simply names the word that lands in the high half.
- The floating-point draws (mxws.hpp:95-123), `to_int` (mxws.hpp:139-153) and `Probability_Wave` are not modelled: they are floating point and type punning.
- The percentage in `double`, the console output, the `std::chrono` timing and `main` (Birthday_Probability.cpp:10-14, 27, 46-54) are not modelled: they are floating point and I/O. Only the integer `successfulTrials` of each group size is kept, as a `Record`.
- Statistical claims are not modelled: uniformity, the bias of the modulo reduction, the probability near 50% at 23 people. They are distributional, not facts about one run.
- `mxws rng;` (Birthday_Probability.cpp:25) does not show its template argument, so the draw width `rn` is a parameter of `BirthdayProbability`.
- The integral draws are modelled for `T = int` only, the type the simulation uses. Their requires exclude only the undefined behaviour of the source: `max + 1` (or `max - min + 1`) overflowing `int`, or being 0.
- UpTo: for `max < -1` it states only that the result is an `int`. The source gives no range there.
- Between: for `min > max` it states only that the result is an `int`. The source gives no range there.
- Output: states only the bound of a draw. Its value is stated lane by lane in `AdvanceLanes` and `Output64Lanes`.
- The words are modelled as pairs of 32-bit halves rather than as machine bit-vectors. The lemmas in `CppInt` tie each operation to its arithmetic meaning modulo 2^64.
- The `short` counters are `int` counters. The model requires `K <= SHRT_MAX` and proves that no counter passes K, so a `short` never wraps.
- The constants of the source are generalised to a `Config`. `Config.Valid` states the range covered: every `int` variable in range, `Ndays >= 1`, `K >= 1`, a sweep bound below `INT_MAX`, `TRIALS >= 0` and a first group size `>= 0`. The last two are counts the model indexes the stream of days with, so it takes them as natural numbers; the C++ loops would accept negative values and then run no trial, or draw nothing in a trial. The source's own constants lie in it (`SourceConfigValid`).
- The nested loops of `Birthday_Probability` are split into one method per loop or statement: `SweepGroups`, `RunTrials`, `Trial`, `ClearDays`, `DrawBirthdays`, `DrawOne` and `Increment`. `BirthdayProbability` builds the engine and the counters and runs the sweep.
- The stream of days the model reads is finite. It is as long as the most draws the sweep can make (`SweepNeed`), which is enough for every run.
- `min()`/`max()` (mxws.hpp:69-70) appear only as the functions `MinResult`/`MaxResult`, the bounds of `OutputBounds`. The virtual destructor and the `result_type` typedef have no behaviour to model.
