/** The birthday experiment: for every group size in a sweep, run a number of
    trials; a trial draws one birthday per person from the generator into an
    array of day counters and stops at the first draw that brings some day's
    counter to the threshold K. The number of trials that stopped that way is
    the result for the group size.

    The whole sweep reads one stream of days: the days rng(Ndays - 1) picks
    on successive calls. The trials and the sweep are specified on that
    stream, a trial by the position of its first draw in it; the methods read
    the same days from the engine itself.

    The constants of the source (365 days, 1500000 trials, K = 2, group sizes
    2 to 100) are the fields of a Config. */
module BirthdayProbability {
  import opened CppInt
  import opened BitGenerator

  datatype Option<T> = None | Some(value: T)

  /** Ndays, TRIALS, Npeople_with_same_birthday and the bounds of the sweep
      over `people` (both inclusive). */
  datatype Config = Config(days: int, trials: int, k: int, fromPeople: int, toPeople: int)
  {
    /** The range the model covers: every counter of the source is a `short`
        that never passes K, every other variable an `int` that never
        overflows, and rng(days - 1) has a divisor. */
    predicate Valid() {
      && 1 <= days <= INT_MAX
      && 0 <= trials <= INT_MAX
      && 1 <= k <= SHRT_MAX
      && 0 <= fromPeople <= INT_MAX
      && IsInt(toPeople) && toPeople < INT_MAX
    }
  }

  /** The constants Birthday_Probability is written with. */
  const SourceConfig: Config := Config(365, 1500000, 2, 2, 100)

  /** The outcome for one group size: how many trials had a shared birthday. */
  datatype Record = Record(people: int, successfulTrials: int)

  predicate InRange(ds: seq<int>, days: int) {
    forall i :: 0 <= i < |ds| ==> 0 <= ds[i] < days
  }

  /** The day rng(Ndays - 1) picks when the engine is in state s. */
  function Birthday(rn: Width, s: State, days: int): (d: int)
    requires 1 <= days <= INT_MAX
    ensures 0 <= d < days
  {
    UpTo(rn, Output(rn, s), days - 1)
  }

  /** The days n successive draws from state s pick: draw i is the day the
      engine picks after i earlier draws. */
  function Birthdays(rn: Width, s: State, days: int, n: nat): (ds: seq<int>)
    requires 1 <= days <= INT_MAX
    ensures |ds| == n
  {
    seq(n, i requires 0 <= i => Birthday(rn, Run(rn, s, i), days))
  }

  // The functions below look at the n draws of the stream ds from position
  // pos on, which is how far a trial that starts at pos has got after n
  // passes of its loop.

  /** How often b occurs among the n draws from pos. */
  function Count(ds: seq<int>, pos: nat, n: nat, b: int): (c: nat)
    requires pos + n <= |ds|
    ensures c <= n
  {
    if n == 0 then 0 else Count(ds, pos, n - 1, b) + if ds[pos + n - 1] == b then 1 else 0
  }

  /** The day counters after the n draws from pos, from all zero: each draw
      adds one to the counter of its day (a draw outside 0 .. days - 1, which
      DrawnInRange rules out, would leave them alone). */
  function Histogram(ds: seq<int>, pos: nat, n: nat, days: nat): (h: seq<int>)
    requires pos + n <= |ds|
    ensures |h| == days
  {
    if n == 0 then seq(days, _ => 0)
    else
      var h := Histogram(ds, pos, n - 1, days);
      var d := ds[pos + n - 1];
      if 0 <= d < days then h[d := h[d] + 1] else h
  }

  /** The sum of the first n counters. */
  function Sum(h: seq<int>, n: nat): int
    requires n <= |h|
  {
    if n == 0 then 0 else Sum(h, n - 1) + h[n - 1]
  }

  /** Some day occurs at least k times among the n draws from pos. */
  predicate Reaches(ds: seq<int>, pos: nat, n: nat, k: int)
    requires pos + n <= |ds|
  {
    exists i :: pos <= i < pos + n && Count(ds, pos, n, ds[i]) >= k
  }

  /** The number of draws up to and including the first one that brings a
      day's count to k, if one of the n draws from pos does. */
  function FirstReach(ds: seq<int>, pos: nat, n: nat, k: int): (r: Option<nat>)
    requires pos + n <= |ds|
    ensures r.Some? ==> 1 <= r.value <= n
  {
    if n == 0 then None
    else
      match FirstReach(ds, pos, n - 1, k)
      case Some(t) => Some(t)
      case None => if Count(ds, pos, n, ds[pos + n - 1]) >= k then Some(n) else None
  }

  /** The number of draws a trial of `people` draws from pos makes before
      it stops. */
  function DrawsMade(ds: seq<int>, pos: nat, people: nat, k: int): (t: nat)
    requires pos + people <= |ds|
    ensures t <= people
  {
    match FirstReach(ds, pos, people, k)
    case Some(t) => t
    case None => people
  }

  /** One trial of `people` draws from pos: whether it found a shared
      birthday, and the position of the next trial's first draw. */
  function TrialOutcome(ds: seq<int>, pos: nat, k: int, people: nat): (r: (bool, nat))
    requires pos + people <= |ds|
    ensures pos <= r.1 <= pos + people
  {
    (FirstReach(ds, pos, people, k).Some?, pos + DrawsMade(ds, pos, people, k))
  }

  /** The most draws n trials of `people` draws can make. */
  function TrialsNeed(people: nat, n: nat): nat {
    if n == 0 then 0 else TrialsNeed(people, n - 1) + people
  }

  /** n trials one after the other from pos: the number that found a shared
      birthday, and the position after their draws. */
  function Trials(ds: seq<int>, pos: nat, k: int, people: nat, n: nat): (r: (int, nat))
    requires pos + TrialsNeed(people, n) <= |ds|
    ensures pos <= r.1 <= pos + TrialsNeed(people, n)
  {
    if n == 0 then (0, pos)
    else
      var (count, t) := Trials(ds, pos, k, people, n - 1);
      var (shared, u) := TrialOutcome(ds, t, k, people);
      (if shared then count + 1 else count, u)
  }

  /** The most draws the group sizes cfg.fromPeople up to p - 1 can make. */
  function SweepNeed(cfg: Config, p: int): nat
    requires cfg.Valid() && cfg.fromPeople <= p
    decreases p - cfg.fromPeople
  {
    if p == cfg.fromPeople then 0 else SweepNeed(cfg, p - 1) + TrialsNeed(p - 1, cfg.trials)
  }

  /** The records of the group sizes cfg.fromPeople up to p - 1, and the
      position after their draws. */
  function SweepTo(ds: seq<int>, cfg: Config, p: int): (r: (seq<Record>, nat))
    requires cfg.Valid() && cfg.fromPeople <= p && SweepNeed(cfg, p) <= |ds|
    ensures r.1 <= SweepNeed(cfg, p)
    decreases p - cfg.fromPeople
  {
    if p == cfg.fromPeople then ([], 0)
    else
      var (records, t) := SweepTo(ds, cfg, p - 1);
      var (count, u) := Trials(ds, t, cfg.k, p - 1, cfg.trials);
      (records + [Record(p - 1, count)], u)
  }

  /** One past the last group size of the sweep; the sweep is empty when its
      bounds are reversed. */
  function SweepEnd(cfg: Config): (p: int)
    ensures cfg.fromPeople <= p
    ensures cfg.fromPeople <= cfg.toPeople ==> p == cfg.toPeople + 1
  {
    if cfg.toPeople < cfg.fromPeople then cfg.fromPeople else cfg.toPeople + 1
  }

  /** The days the engine picks from state s, as many as the sweep can use. */
  function SweepDays(rn: Width, s: State, cfg: Config): (ds: seq<int>)
    requires cfg.Valid()
    ensures |ds| == SweepNeed(cfg, SweepEnd(cfg))
  {
    Birthdays(rn, s, cfg.days, SweepNeed(cfg, SweepEnd(cfg)))
  }

  /** The records of the whole sweep from state s. */
  function Sweep(rn: Width, s: State, cfg: Config): seq<Record>
    requires cfg.Valid()
  {
    SweepTo(SweepDays(rn, s, cfg), cfg, SweepEnd(cfg)).0
  }

  // ---------------------------------------------------------------------
  // The stream of days

  /** The states the engine passes through from s, before each of n draws
      and after the last. */
  ghost function States(rn: Width, s: State, n: nat): (ss: seq<State>)
    ensures |ss| == n + 1
    ensures forall i :: 0 <= i <= n ==> ss[i] == Run(rn, s, i)
  {
    seq(n + 1, i requires 0 <= i => Run(rn, s, i))
  }

  /** Draw i of the stream ds is the day the engine picks in state ss[i],
      and that draw takes it to state ss[i + 1]. */
  predicate Link(ds: seq<int>, ss: seq<State>, rn: Width, days: int, i: int)
    requires 1 <= days <= INT_MAX && 0 <= i < |ds| && |ss| == |ds| + 1
  {
    ds[i] == Birthday(rn, ss[i], days) && ss[i + 1] == Advance(rn, ss[i])
  }

  /** ds is the stream of days the engine delivers along the states ss. */
  predicate DrawnFrom(ds: seq<int>, ss: seq<State>, rn: Width, days: int)
    requires 1 <= days <= INT_MAX
  {
    |ss| == |ds| + 1 && forall i {:trigger Link(ds, ss, rn, days, i)} :: 0 <= i < |ds| ==> Link(ds, ss, rn, days, i)
  }

  /** The days of the sweep are the stream the engine delivers from s0. */
  lemma SweepDaysDrawn(rn: Width, s0: State, cfg: Config)
    requires cfg.Valid()
    ensures var ds := SweepDays(rn, s0, cfg); DrawnFrom(ds, States(rn, s0, |ds|), rn, cfg.days)
  {
    var ds := SweepDays(rn, s0, cfg);
    var ss := States(rn, s0, |ds|);
    forall i | 0 <= i < |ds|
      ensures Link(ds, ss, rn, cfg.days, i)
    {
      assert ds[i] == Birthday(rn, Run(rn, s0, i), cfg.days);
      assert ss[i + 1] == Run(rn, s0, i + 1);
    }
  }

  /** The stream of the sweep and its states, with what the simulation
      needs to know of them: the sweep reads exactly this stream, from the
      engine's first state on. */
  lemma SweepStream(rn: Width, s0: State, cfg: Config) returns (ds: seq<int>, ss: seq<State>)
    requires cfg.Valid()
    ensures |ds| == SweepNeed(cfg, SweepEnd(cfg)) && DrawnFrom(ds, ss, rn, cfg.days) && ss[0] == s0
    ensures Sweep(rn, s0, cfg) == SweepTo(ds, cfg, SweepEnd(cfg)).0
  {
    ds := SweepDays(rn, s0, cfg);
    ss := States(rn, s0, |ds|);
    SweepDaysDrawn(rn, s0, cfg);
  }

  /** Every day of the stream is a valid index of the counters. */
  lemma DrawnInRange(ds: seq<int>, ss: seq<State>, rn: Width, days: int)
    requires 1 <= days <= INT_MAX && DrawnFrom(ds, ss, rn, days)
    ensures InRange(ds, days)
  {
    forall i | 0 <= i < |ds|
      ensures 0 <= ds[i] < days
    {
      assert Link(ds, ss, rn, days, i);
    }
  }

  // ---------------------------------------------------------------------
  // Properties of one trial

  /** Count is the multiplicity of b in the multiset of the draws. */
  lemma {:induction false} CountIsMultiplicity(ds: seq<int>, pos: nat, n: nat, b: int)
    requires pos + n <= |ds|
    ensures Count(ds, pos, n, b) == multiset(ds[pos..pos + n])[b]
  {
    if n > 0 {
      assert ds[pos..pos + n] == ds[pos..pos + n - 1] + [ds[pos + n - 1]];
      CountIsMultiplicity(ds, pos, n - 1, b);
    }
  }

  /** A day that is counted occurs among the draws. */
  lemma {:induction false} CountedOccurs(ds: seq<int>, pos: nat, n: nat, b: int)
    requires pos + n <= |ds| && Count(ds, pos, n, b) > 0
    ensures exists i :: pos <= i < pos + n && ds[i] == b
  {
    if ds[pos + n - 1] != b {
      CountedOccurs(ds, pos, n - 1, b);
    }
  }

  /** Each counter of the histogram is the number of draws of its day. */
  lemma {:induction false} HistogramCounts(ds: seq<int>, pos: nat, n: nat, days: nat, b: int)
    requires pos + n <= |ds| && 0 <= b < days
    ensures Histogram(ds, pos, n, days)[b] == Count(ds, pos, n, b)
  {
    if n > 0 {
      HistogramCounts(ds, pos, n - 1, days, b);
    }
  }

  /** Draw n of the trial, of day d, adds one to the counter of d, which then
      holds the number of draws of d. */
  lemma HistogramStep(ds: seq<int>, pos: nat, n: nat, days: nat, d: int, before: seq<int>, after: seq<int>)
    requires pos + n < |ds| && ds[pos + n] == d && 0 <= d < days
    requires before == Histogram(ds, pos, n, days)
    requires after == before[d := before[d] + 1]
    ensures after == Histogram(ds, pos, n + 1, days)
    ensures after[d] == Count(ds, pos, n + 1, d)
  {
    HistogramCounts(ds, pos, n + 1, days, d);
  }

  /** Adding one to a counter adds one to the sum of the counters that
      include it. */
  lemma {:induction false} SumBump(h: seq<int>, n: nat, i: int)
    requires n <= |h| && 0 <= i < |h|
    ensures Sum(h[i := h[i] + 1], n) == Sum(h, n) + if i < n then 1 else 0
  {
    if n > 0 {
      SumBump(h, n - 1, i);
    }
  }

  lemma {:induction false} SumZeros(days: nat, n: nat)
    requires n <= days
    ensures Sum(seq(days, _ => 0), n) == 0
  {
    if n > 0 {
      SumZeros(days, n - 1);
    }
  }

  /** Conservation: the counters add up to the number of draws. */
  lemma {:induction false} HistogramSum(ds: seq<int>, pos: nat, n: nat, days: nat)
    requires pos + n <= |ds| && InRange(ds, days)
    ensures Sum(Histogram(ds, pos, n, days), days) == n
  {
    if n == 0 {
      SumZeros(days, days);
    } else {
      HistogramSum(ds, pos, n - 1, days);
      SumBump(Histogram(ds, pos, n - 1, days), days, ds[pos + n - 1]);
    }
  }

  /** Fewer than k draws can never bring a day to k. */
  lemma FewerThanThreshold(ds: seq<int>, pos: nat, n: nat, k: int)
    requires pos + n <= |ds| && n < k
    ensures !Reaches(ds, pos, n, k)
  {
  }

  /** Short-circuit equivalence: the trial that stops at the first day to
      reach k reports a shared birthday exactly when some day occurs k times
      among all its draws. */
  lemma {:induction false} ShortCircuitEquivalence(ds: seq<int>, pos: nat, n: nat, k: int)
    requires pos + n <= |ds|
    ensures FirstReach(ds, pos, n, k).Some? <==> Reaches(ds, pos, n, k)
  {
    if n > 0 {
      ShortCircuitEquivalence(ds, pos, n - 1, k);
      if FirstReach(ds, pos, n - 1, k).Some? {
        var i :| pos <= i < pos + n - 1 && Count(ds, pos, n - 1, ds[i]) >= k;
        assert Count(ds, pos, n, ds[i]) >= k;
      }
    }
  }

  /** Once the first m draws have stopped the trial, the draws after them
      change nothing. */
  lemma {:induction false} FirstReachExtends(ds: seq<int>, pos: nat, m: nat, n: nat, k: int)
    requires m <= n && pos + n <= |ds| && FirstReach(ds, pos, m, k).Some?
    ensures FirstReach(ds, pos, n, k) == FirstReach(ds, pos, m, k)
  {
    if m < n {
      FirstReachExtends(ds, pos, m, n - 1, k);
    }
  }

  /** The stopping draw t brings a day to k and none before it does. */
  lemma {:induction false} FirstReachAt(ds: seq<int>, pos: nat, n: nat, k: int)
    requires pos + n <= |ds| && FirstReach(ds, pos, n, k).Some?
    ensures var t := FirstReach(ds, pos, n, k).value;
      FirstReach(ds, pos, t, k) == Some(t) && FirstReach(ds, pos, t - 1, k) == None
  {
    if FirstReach(ds, pos, n - 1, k).Some? {
      FirstReachAt(ds, pos, n - 1, k);
    }
  }

  /** The trial stops at the first of its draws after which some day occurs
      k times. */
  lemma FirstReachIsFirst(ds: seq<int>, pos: nat, people: nat, k: int, t: nat)
    requires pos + people <= |ds| && FirstReach(ds, pos, people, k) == Some(t)
    ensures 1 <= t <= people
    ensures Reaches(ds, pos, t, k) && !Reaches(ds, pos, t - 1, k)
  {
    FirstReachAt(ds, pos, people, k);
    ShortCircuitEquivalence(ds, pos, t, k);
    ShortCircuitEquivalence(ds, pos, t - 1, k);
  }

  /** Below the threshold every day's count is less than k. */
  lemma BelowThreshold(ds: seq<int>, pos: nat, n: nat, k: int, b: int)
    requires pos + n <= |ds| && 1 <= k && FirstReach(ds, pos, n, k) == None
    ensures Count(ds, pos, n, b) < k
  {
    ShortCircuitEquivalence(ds, pos, n, k);
    if Count(ds, pos, n, b) > 0 {
      CountedOccurs(ds, pos, n, b);
    }
  }

  /** While no day has reached k, every counter is below k. */
  lemma CountersBelow(ds: seq<int>, pos: nat, n: nat, days: nat, k: int)
    requires pos + n <= |ds| && 1 <= k && FirstReach(ds, pos, n, k) == None
    ensures forall b :: 0 <= b < days ==> 0 <= Histogram(ds, pos, n, days)[b] < k
  {
    forall b | 0 <= b < days
      ensures 0 <= Histogram(ds, pos, n, days)[b] < k
    {
      HistogramCounts(ds, pos, n, days, b);
      BelowThreshold(ds, pos, n, k, b);
    }
  }

  /** At the draw that stops the trial, its day's counter is exactly k and
      every counter is at most k. */
  lemma CountersAtStop(ds: seq<int>, pos: nat, n: nat, days: nat, k: int)
    requires pos + n <= |ds| && InRange(ds, days) && 1 <= k && FirstReach(ds, pos, n, k) == Some(n)
    ensures forall b :: 0 <= b < days ==> 0 <= Histogram(ds, pos, n, days)[b] <= k
    ensures Histogram(ds, pos, n, days)[ds[pos + n - 1]] == k
  {
    var d := ds[pos + n - 1];
    CountersBelow(ds, pos, n - 1, days, k);
    HistogramCounts(ds, pos, n, days, d);
    BelowThreshold(ds, pos, n - 1, k, d);
  }

  /** The counters a trial leaves behind: they add up to the number of draws
      made; none passes k; one equals k exactly when the trial found a shared
      birthday; and when it did not, all the draws were made and every counter
      is below k. */
  lemma TrialCounters(ds: seq<int>, pos: nat, people: nat, days: nat, k: int)
    requires pos + people <= |ds| && InRange(ds, days) && 1 <= k
    ensures var t := DrawsMade(ds, pos, people, k);
      var h := Histogram(ds, pos, t, days);
      && Sum(h, days) == t
      && (forall b :: 0 <= b < days ==> 0 <= h[b] <= k)
      && (FirstReach(ds, pos, people, k).Some? <==> exists b :: 0 <= b < days && h[b] == k)
      && (FirstReach(ds, pos, people, k).None? ==> t == people && forall b :: 0 <= b < days ==> h[b] < k)
  {
    var t := DrawsMade(ds, pos, people, k);
    HistogramSum(ds, pos, t, days);
    if FirstReach(ds, pos, people, k).Some? {
      FirstReachAt(ds, pos, people, k);
      CountersAtStop(ds, pos, t, days, k);
    } else {
      CountersBelow(ds, pos, people, days, k);
    }
  }

  /** What a trial loop knows when it leaves: it stopped after `made` draws,
      at the first one that brought a day to k, or after all of them with no
      day at k. Then `made` is the number of draws the trial makes, and the
      counters are as TrialCounters says. */
  lemma TrialStops(ds: seq<int>, pos: nat, people: nat, days: nat, k: int, made: nat, shared: bool)
    requires pos + people <= |ds| && InRange(ds, days) && 1 <= k && made <= people
    requires shared ==> FirstReach(ds, pos, people, k) == Some(made)
    requires !shared ==> made == people && FirstReach(ds, pos, people, k) == None
    ensures made == DrawsMade(ds, pos, people, k)
    ensures shared == FirstReach(ds, pos, people, k).Some? == Reaches(ds, pos, people, k)
    ensures var h := Histogram(ds, pos, made, days);
      && Sum(h, days) == made
      && (forall b :: 0 <= b < days ==> 0 <= h[b] <= k)
      && (shared <==> exists b :: 0 <= b < days && h[b] == k)
      && (!shared ==> made == people && forall b :: 0 <= b < days ==> h[b] < k)
  {
    TrialCounters(ds, pos, people, days, k);
    ShortCircuitEquivalence(ds, pos, people, k);
  }

  // ---------------------------------------------------------------------
  // Properties of the trials and of the sweep

  /** Fewer than k draws never stop a trial. */
  lemma FewerNeverStop(ds: seq<int>, pos: nat, people: nat, k: int)
    requires pos + people <= |ds| && people < k
    ensures FirstReach(ds, pos, people, k) == None
  {
    FewerThanThreshold(ds, pos, people, k);
    ShortCircuitEquivalence(ds, pos, people, k);
  }

  /** A trial of fewer people than K never finds a shared birthday. */
  lemma FewPeopleNoShare(ds: seq<int>, pos: nat, k: int, people: nat)
    requires pos + people <= |ds| && people < k
    ensures !TrialOutcome(ds, pos, k, people).0
  {
    FewerNeverStop(ds, pos, people, k);
  }

  /** Fewer trials need no more draws. */
  lemma {:induction false} TrialsNeedGrows(people: nat, m: nat, n: nat)
    requires m <= n
    ensures TrialsNeed(people, m) <= TrialsNeed(people, n)
  {
    if m < n {
      TrialsNeedGrows(people, m, n - 1);
    }
  }

  /** Fewer group sizes need no more draws. */
  lemma {:induction false} SweepNeedGrows(cfg: Config, p: int, q: int)
    requires cfg.Valid() && cfg.fromPeople <= p <= q
    ensures SweepNeed(cfg, p) <= SweepNeed(cfg, q)
    decreases q - p
  {
    if p < q {
      SweepNeedGrows(cfg, p, q - 1);
    }
  }

  /** The trial after n trials starts where they stopped and adds one to
      their count exactly when it finds a shared birthday. */
  lemma TrialsNext(ds: seq<int>, pos: nat, k: int, people: nat, n: nat,
                   count: int, t: nat, shared: bool, u: nat)
    requires pos + TrialsNeed(people, n + 1) <= |ds|
    requires (count, t) == Trials(ds, pos, k, people, n)
    requires (shared, u) == TrialOutcome(ds, t, k, people)
    ensures (if shared then count + 1 else count, u) == Trials(ds, pos, k, people, n + 1)
  {
  }

  /** successfulTrials counts trials, so it lies between 0 and the number of
      trials; and with fewer people than K it stays 0. */
  lemma {:induction false} TrialsBounds(ds: seq<int>, pos: nat, k: int, people: nat, n: nat)
    requires pos + TrialsNeed(people, n) <= |ds|
    ensures 0 <= Trials(ds, pos, k, people, n).0 <= n
    ensures people < k ==> Trials(ds, pos, k, people, n).0 == 0
  {
    if n > 0 {
      TrialsBounds(ds, pos, k, people, n - 1);
      if people < k {
        FewPeopleNoShare(ds, Trials(ds, pos, k, people, n - 1).1, k, people);
      }
    }
  }

  /** The group size after the first ones adds its record to theirs and
      starts its trials where theirs stopped. */
  lemma SweepNext(ds: seq<int>, cfg: Config, p: int, records: seq<Record>, t: nat, count: int, u: nat)
    requires cfg.Valid() && cfg.fromPeople <= p && SweepNeed(cfg, p + 1) <= |ds|
    requires (records, t) == SweepTo(ds, cfg, p)
    requires (count, u) == Trials(ds, t, cfg.k, p, cfg.trials)
    ensures (records + [Record(p, count)], u) == SweepTo(ds, cfg, p + 1)
  {
  }

  /** Record i of the sweep is for the group size cfg.fromPeople + i, and
      its count lies between 0 and the number of trials, and is 0 for a
      group smaller than K. */
  predicate RecordsFrom(records: seq<Record>, cfg: Config) {
    forall i :: 0 <= i < |records| ==>
      && records[i].people == cfg.fromPeople + i
      && 0 <= records[i].successfulTrials <= cfg.trials
      && (records[i].people < cfg.k ==> records[i].successfulTrials == 0)
  }

  /** The record of the next group size extends the records. */
  lemma RecordsStep(records: seq<Record>, cfg: Config, count: int)
    requires RecordsFrom(records, cfg)
    requires 0 <= count <= cfg.trials
    requires cfg.fromPeople + |records| < cfg.k ==> count == 0
    ensures RecordsFrom(records + [Record(cfg.fromPeople + |records|, count)], cfg)
  {
  }

  /** The sweep gives one record per group size, in ascending order of group
      size, each with a count between 0 and the number of trials, and a count
      of 0 for every group smaller than K. */
  lemma {:induction false} SweepToRecords(ds: seq<int>, cfg: Config, p: int)
    requires cfg.Valid() && cfg.fromPeople <= p && SweepNeed(cfg, p) <= |ds|
    ensures |SweepTo(ds, cfg, p).0| == p - cfg.fromPeople
    ensures RecordsFrom(SweepTo(ds, cfg, p).0, cfg)
  {
    if p > cfg.fromPeople {
      SweepToRecords(ds, cfg, p - 1);
      var r := SweepTo(ds, cfg, p - 1);
      TrialsBounds(ds, r.1, cfg.k, p - 1, cfg.trials);
      RecordsStep(r.0, cfg, Trials(ds, r.1, cfg.k, p - 1, cfg.trials).0);
    }
  }

  /** The constants of the source lie in the range the model covers, and
      their sweep runs over the 99 group sizes 2 to 100. */
  lemma SourceConfigValid()
    ensures SourceConfig.Valid()
    ensures SweepEnd(SourceConfig) == 101 && SweepEnd(SourceConfig) - SourceConfig.fromPeople == 99
  {
  }

  // ---------------------------------------------------------------------
  // The simulation

  /** The loop of Birthday_Probability.cpp:33, which sets every counter
      to 0 before a trial. */
  method ClearDays(birthdays: array<int>)
    modifies birthdays
    ensures forall j :: 0 <= j < birthdays.Length ==> birthdays[j] == 0
  {
    var j := 0;
    while j < birthdays.Length
      invariant 0 <= j <= birthdays.Length
      invariant forall i :: 0 <= i < j ==> birthdays[i] == 0
    {
      birthdays[j] := 0;
      j := j + 1;
    }
  }

  /** One trial: clear the counters, then draw a day per person, stopping at
      the first counter that passes K - 1. The engine starts at draw pos of
      the stream ds it delivers along the states ss; the trial reads the days from
      pos on and `next` is where the next trial starts. */
  method Trial(rng: Mxws, birthdays: array<int>, people: nat, k: int, ghost ss: seq<State>, ghost ds: seq<int>, ghost pos: nat)
    returns (sharedBirthday: bool, ghost next: nat)
    requires 1 <= birthdays.Length <= INT_MAX && 1 <= k <= SHRT_MAX && people <= INT_MAX
    requires DrawnFrom(ds, ss, rng.rn, birthdays.Length) && pos + people <= |ds|
    requires rng.Snapshot() == ss[pos]
    modifies rng, birthdays
    ensures (sharedBirthday, next) == TrialOutcome(ds, pos, k, people)
    ensures rng.Snapshot() == ss[next]
    ensures var t := DrawsMade(ds, pos, people, k);
      && sharedBirthday == Reaches(ds, pos, people, k)
      && birthdays[..] == Histogram(ds, pos, t, birthdays.Length)
      && Sum(birthdays[..], birthdays.Length) == t <= people
      && (forall b :: 0 <= b < birthdays.Length ==> 0 <= birthdays[b] <= k)
      && (sharedBirthday <==> exists b :: 0 <= b < birthdays.Length && birthdays[b] == k)
      && (!sharedBirthday ==> t == people && forall b :: 0 <= b < birthdays.Length ==> birthdays[b] < k)
  {
    ClearDays(birthdays);
    assert birthdays[..] == Histogram(ds, pos, 0, birthdays.Length);
    ghost var made;
    sharedBirthday, made := DrawBirthdays(rng, birthdays, people, k, ss, ds, pos);
    DrawnInRange(ds, ss, rng.rn, birthdays.Length);
    if sharedBirthday {
      FirstReachExtends(ds, pos, made, people, k);
    }
    TrialStops(ds, pos, people, birthdays.Length, k, made, sharedBirthday);
    next := pos + made;
  }

  /** The drawing loop of a trial, from cleared counters: add one to the
      counter of each drawn day and leave at the first counter that passes
      K - 1; `made` is the number of draws it made. */
  method DrawBirthdays(rng: Mxws, birthdays: array<int>, people: nat, k: int, ghost ss: seq<State>, ghost ds: seq<int>, ghost pos: nat)
    returns (sharedBirthday: bool, ghost made: nat)
    requires 1 <= birthdays.Length <= INT_MAX && 1 <= k <= SHRT_MAX && people <= INT_MAX
    requires DrawnFrom(ds, ss, rng.rn, birthdays.Length) && pos + people <= |ds|
    requires rng.Snapshot() == ss[pos]
    requires birthdays[..] == Histogram(ds, pos, 0, birthdays.Length)
    modifies rng, birthdays
    ensures made <= people
    ensures rng.Snapshot() == ss[pos + made]
    ensures birthdays[..] == Histogram(ds, pos, made, birthdays.Length)
    ensures sharedBirthday ==> FirstReach(ds, pos, made, k) == Some(made)
    ensures !sharedBirthday ==> made == people && FirstReach(ds, pos, people, k) == None
  {
    var days := birthdays.Length;
    sharedBirthday := false;
    made := people;
    var j := 0;
    while j < people
      invariant 0 <= j <= people
      invariant rng.Snapshot() == ss[pos + j]
      invariant birthdays[..] == Histogram(ds, pos, j, days)
      invariant FirstReach(ds, pos, j, k) == None
      invariant !sharedBirthday && made == people
    {
      var d := DrawOne(rng, birthdays, ss, ds, pos, j);
      if birthdays[d] > k - 1 {
        sharedBirthday := true;
        made := j + 1;
        break;
      }
      j := j + 1;
    }
  }

  /** One pass of the drawing loop, the increment in the condition of
      Birthday_Probability.cpp:38: rng(Ndays - 1) picks a day and that day's
      counter goes up by one. The day is draw j of the trial, and the counters are
      the histogram of one more draw. */
  method DrawOne(rng: Mxws, birthdays: array<int>, ghost ss: seq<State>, ghost ds: seq<int>, ghost pos: nat, j: nat)
    returns (d: int)
    requires 1 <= birthdays.Length <= INT_MAX
    requires DrawnFrom(ds, ss, rng.rn, birthdays.Length) && pos + j < |ds|
    requires rng.Snapshot() == ss[pos + j]
    requires birthdays[..] == Histogram(ds, pos, j, birthdays.Length)
    modifies rng, birthdays
    ensures rng.Snapshot() == ss[pos + (j + 1)]
    ensures 0 <= d < birthdays.Length && d == ds[pos + j]
    ensures birthdays[..] == Histogram(ds, pos, j + 1, birthdays.Length)
    ensures birthdays[d] == Count(ds, pos, j + 1, d)
  {
    assert Link(ds, ss, rng.rn, birthdays.Length, pos + j);
    d := rng.NextUpTo(birthdays.Length - 1);
    ghost var before := birthdays[..];
    Increment(birthdays, d);
    HistogramStep(ds, pos, j, birthdays.Length, d, before, birthdays[..]);
  }

  /** The increment of Birthday_Probability.cpp:38: the counter of the
      picked day goes up by one. */
  method Increment(birthdays: array<int>, d: int)
    requires 0 <= d < birthdays.Length
    modifies birthdays
    ensures birthdays[..] == old(birthdays[..])[d := old(birthdays[..])[d] + 1]
  {
    birthdays[d] := birthdays[d] + 1;
  }

  /** The TRIALS trials of one group size, counting those that found a
      shared birthday; they read the stream from pos on and leave it at
      `next`. */
  method RunTrials(rng: Mxws, birthdays: array<int>, people: nat, k: int, trials: nat,
                   ghost ss: seq<State>, ghost ds: seq<int>, ghost pos: nat)
    returns (successfulTrials: int, ghost next: nat)
    requires 1 <= birthdays.Length <= INT_MAX && 1 <= k <= SHRT_MAX && people <= INT_MAX
    requires DrawnFrom(ds, ss, rng.rn, birthdays.Length) && pos + TrialsNeed(people, trials) <= |ds|
    requires rng.Snapshot() == ss[pos]
    modifies rng, birthdays
    ensures (successfulTrials, next) == Trials(ds, pos, k, people, trials)
    ensures rng.Snapshot() == ss[next]
  {
    successfulTrials := 0;
    next := pos;
    var i := 0;
    while i < trials
      invariant 0 <= i <= trials
      invariant pos + TrialsNeed(people, i) <= |ds|
      invariant (successfulTrials, next) == Trials(ds, pos, k, people, i)
      invariant rng.Snapshot() == ss[next]
    {
      TrialsNeedGrows(people, i + 1, trials);
      var sharedBirthday;
      ghost var after;
      sharedBirthday, after := Trial(rng, birthdays, people, k, ss, ds, next);
      TrialsNext(ds, pos, k, people, i, successfulTrials, next, sharedBirthday, after);
      if sharedBirthday {
        successfulTrials := successfulTrials + 1;
      }
      next := after;
      i := i + 1;
    }
  }

  /** Birthday_Probability: for every group size of the sweep, run the trials
      and count those with a shared birthday. The engine is built inside, as
      in the source, from the two words its entropy device delivers. */
  method BirthdayProbability(rn: Width, cfg: Config, hi: UInt32, lo: UInt32) returns (results: seq<Record>)
    requires cfg.Valid()
    ensures results == Sweep(rn, EntropyState(hi, lo), cfg)
    ensures |results| == if cfg.fromPeople <= cfg.toPeople then cfg.toPeople - cfg.fromPeople + 1 else 0
    ensures RecordsFrom(results, cfg)
  {
    var birthdays := new int[cfg.days](_ => 0);
    var rng := new Mxws(rn, hi, lo);
    ghost var ds, ss := SweepStream(rn, EntropyState(hi, lo), cfg);
    results := SweepGroups(rng, birthdays, cfg, ss, ds);
  }

  /** The loop over the group sizes of Birthday_Probability, from the
      engine's first state ss[0] on. */
  method SweepGroups(rng: Mxws, birthdays: array<int>, cfg: Config, ghost ss: seq<State>, ghost ds: seq<int>)
    returns (results: seq<Record>)
    requires cfg.Valid() && birthdays.Length == cfg.days
    requires |ds| == SweepNeed(cfg, SweepEnd(cfg)) && DrawnFrom(ds, ss, rng.rn, cfg.days) && rng.Snapshot() == ss[0]
    modifies rng, birthdays
    ensures results == SweepTo(ds, cfg, SweepEnd(cfg)).0
    ensures |results| == if cfg.fromPeople <= cfg.toPeople then cfg.toPeople - cfg.fromPeople + 1 else 0
    ensures RecordsFrom(results, cfg)
  {
    ghost var pos := 0;
    results := [];
    var people := cfg.fromPeople;
    while people < cfg.toPeople + 1
      invariant cfg.fromPeople <= people <= SweepEnd(cfg)
      invariant SweepNeed(cfg, people) <= |ds|
      invariant (results, pos) == SweepTo(ds, cfg, people)
      invariant rng.Snapshot() == ss[pos]
    {
      SweepNeedGrows(cfg, people + 1, SweepEnd(cfg));
      var successfulTrials;
      ghost var next;
      successfulTrials, next := RunTrials(rng, birthdays, people, cfg.k, cfg.trials, ss, ds, pos);
      SweepNext(ds, cfg, people, results, pos, successfulTrials, next);
      results := results + [Record(people, successfulTrials)];
      pos := next;
      people := people + 1;
    }
    assert people == SweepEnd(cfg);
    SweepToRecords(ds, cfg, people);
  }
}
