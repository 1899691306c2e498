/** The lock-free log2 latency histogram (driver/dmaplane_histogram.c), at the level of its
    single atomic operations. */
module Histogram {
  import opened Arithmetic

  const U64_MAX: nat := 0xFFFF_FFFF_FFFF_FFFF
  const BUCKETS: nat := 16

  type Nanos = x: nat | x <= U64_MAX

  /** 64-bit addition and multiplication of 64-bit operands. */
  function Add64(a: nat, b: nat): nat { if a + b < U64 then a + b else a + b - U64 }

  function Mul64(a: nat, b: nat): (p: nat)
    ensures a * b < U64 ==> p == a * b
  {
    a * b % U64
  }

  datatype Hist = Hist(buckets: seq<nat>, count: nat, sum: nat, min: nat, max: nat)

  function Empty(): (h: Hist)
    ensures |h.buckets| == BUCKETS
  {
    Hist(seq(BUCKETS, _ => 0), 0, 0, U64_MAX, 0)
  }

  // -------------------------------------------------------------------- buckets

  function Ilog2(x: nat): nat
    requires x >= 1
  {
    if x == 1 then 0 else 1 + Ilog2(x / 2)
  }

  /** Bucket 0 takes [0, 2) us, bucket i takes [2^i, 2^(i+1)) us, the last everything above. */
  function Bucket(ns: nat): (b: nat)
    ensures b < BUCKETS
  {
    var us := ns / 1000;
    if us == 0 then 0 else if Ilog2(us) < BUCKETS - 1 then Ilog2(us) else BUCKETS - 1
  }

  /** What summarize reports for bucket i. */
  function Bound(i: nat): nat {
    if i < BUCKETS - 1 then Pow2(i + 1) * 1000 else U64_MAX
  }

  lemma {:induction false} Ilog2Bounds(x: nat)
    requires x >= 1
    ensures Pow2(Ilog2(x)) <= x < Pow2(Ilog2(x) + 1)
  {
    if x > 1 {
      Ilog2Bounds(x / 2);
    }
  }

  /** A sample is in one of the first i + 1 buckets exactly when it is below their bound. */
  lemma {:induction false} BucketBelowBound(ns: nat, i: nat)
    requires i < BUCKETS - 1
    ensures Bucket(ns) <= i <==> ns < Bound(i)
  {
    var us := ns / 1000;
    assert us < Pow2(i + 1) <==> ns < Pow2(i + 1) * 1000;
    if us == 0 {
      assert Bucket(ns) == 0;
    } else {
      Ilog2Bounds(us);
      if Ilog2(us) <= i {
        Pow2Grows(Ilog2(us) + 1, i + 1);
      } else {
        Pow2Grows(i + 1, Ilog2(us));
      }
    }
  }

  /** The fifteen bounds are 2, 4, ..., 32768 us; the overflow bucket reports U64_MAX. */
  lemma {:induction false} BoundsAre(i: nat)
    requires i < 16
    ensures Bound(i) == if i < 15 then 2000 * Pow2(i) else 0xFFFF_FFFF_FFFF_FFFF
  {
  }

  // ------------------------------------------------------------------ recorders

  /** One call of record: where it is between its atomic operations, and the value of min_ns or
      max_ns it last saw. */
  datatype Pc = AtBucket | AtCount | AtSum | ReadingMin | TestingMin | ReadingMax | TestingMax | Returned
  datatype Recorder = Recorder(lat: nat, pc: Pc, seen: nat)

  /** The next atomic operation of a call. */
  function RecordStep(h: Hist, r: Recorder): (Hist, Recorder)
    requires |h.buckets| == BUCKETS
  {
    match r.pc
    case AtBucket =>
      var b := Bucket(r.lat);
      (h.(buckets := h.buckets[b := Add64(h.buckets[b], 1)]), r.(pc := AtCount))
    case AtCount => (h.(count := Add64(h.count, 1)), r.(pc := AtSum))
    case AtSum => (h.(sum := Add64(h.sum, r.lat)), r.(pc := ReadingMin))
    case ReadingMin => (h, r.(seen := h.min, pc := TestingMin))
    case TestingMin =>
      if r.lat >= r.seen then (h, r.(pc := ReadingMax))
      else if h.min == r.seen then (h.(min := r.lat), r.(pc := ReadingMax))
      else (h, r.(seen := h.min))
    case ReadingMax => (h, r.(seen := h.max, pc := TestingMax))
    case TestingMax =>
      if r.lat <= r.seen then (h, r.(pc := Returned))
      else if h.max == r.seen then (h.(max := r.lat), r.(pc := Returned))
      else (h, r.(seen := h.max))
    case Returned => (h, r)
  }

  // ----------------------------------------------------------------- summariser

  datatype Reading = ReadCount | ReadSum | ReadMin | ReadMax | ReadBucket(i: nat) | Finished
  datatype Percentile = NotYet | At(ns: nat)

  datatype Summary = Summary(pc: Reading, total: nat, sum: nat, avg: nat, min: nat, max: nat, cumulative: nat,
                             p50: Percentile, p99: Percentile, p999: Percentile)

  const FRESH: Summary := Summary(ReadCount, 0, 0, 0, 0, 0, 0, NotYet, NotYet, NotYet)

  /** The comparisons are between 64-bit products. */
  predicate Reaches(cumulative: nat, den: nat, total: nat, num: nat) {
    Mul64(cumulative, den) >= Mul64(total, num)
  }

  function Crossed(p: Percentile, now: bool, i: nat): Percentile {
    if p.NotYet? && now then At(Bound(i)) else p
  }

  /** The next atomic read of summarize. */
  function SummaryStep(h: Hist, s: Summary): Summary
    requires |h.buckets| == BUCKETS && (s.pc.ReadBucket? ==> s.pc.i < BUCKETS)
  {
    match s.pc
    case ReadCount => s.(total := h.count, pc := ReadSum)
    case ReadSum => s.(sum := h.sum, avg := Average(s.total, h.sum), pc := ReadMin)
    case ReadMin => s.(min := if s.total > 0 then h.min else 0, pc := ReadMax)
    case ReadMax => s.(max := h.max, pc := if s.total == 0 then Finished else ReadBucket(0))
    case ReadBucket(i) =>
      var c := Add64(s.cumulative, h.buckets[i]);
      s.(cumulative := c,
         p50 := Crossed(s.p50, Reaches(c, 1000, s.total, 500), i),
         p99 := Crossed(s.p99, Reaches(c, 1000, s.total, 990), i),
         p999 := Crossed(s.p999, Reaches(c, 10000, s.total, 9990), i),
         pc := if i < BUCKETS - 1 then ReadBucket(i + 1) else Finished)
    case Finished => s
  }

  function Average(total: nat, sum: nat): nat { if total > 0 then sum / total else 0 }

  // ---------------------------------------------------------------- interleaving

  datatype Action = Record(i: nat) | Summarise

  datatype Sys = Sys(hist: Hist, recs: seq<Recorder>, summary: Summary)

  function Start(lats: seq<Nanos>): Sys {
    Sys(Empty(), seq(|lats|, i requires 0 <= i < |lats| => Recorder(lats[i], AtBucket, 0)), FRESH)
  }

  predicate Shape(s: Sys) {
    |s.hist.buckets| == BUCKETS && (s.summary.pc.ReadBucket? ==> s.summary.pc.i < BUCKETS)
  }

  function Step(s: Sys, a: Action): (s': Sys)
    requires Shape(s)
    ensures Shape(s')
  {
    match a
    case Summarise => s.(summary := SummaryStep(s.hist, s.summary))
    case Record(i) =>
      if i >= |s.recs| then s
      else
        var (h, r) := RecordStep(s.hist, s.recs[i]);
        s.(hist := h, recs := s.recs[i := r])
  }

  function RunOf(lats: seq<Nanos>, acts: seq<Action>): (s: Sys)
    ensures Shape(s)
  {
    if acts == [] then Start(lats) else Step(RunOf(lats, acts[..|acts| - 1]), acts[|acts| - 1])
  }

  // -------------------------------------------------------------------- tallies

  /** What a recorder has contributed so far to each part of the histogram, and (Work) how many
      atomic operations it can still take while min and max stay as they are. */
  datatype What = UpTo(k: nat) | InBucket(k: nat) | Counted | Summed | Work(scale: nat, min: nat, max: nat)

  function Left(pc: Pc): nat {
    match pc
    case AtBucket => 7
    case AtCount => 6
    case AtSum => 5
    case ReadingMin => 4
    case TestingMin => 3
    case ReadingMax => 2
    case TestingMax => 1
    case Returned => 0
  }

  /** The value it is about to compare with is out of date. */
  predicate Stale(r: Recorder, min: nat, max: nat) {
    (r.pc.TestingMin? && r.seen != min) || (r.pc.TestingMax? && r.seen != max)
  }

  function Weight(r: Recorder, w: What): nat {
    match w
    case UpTo(k) => if !r.pc.AtBucket? && Bucket(r.lat) < k then 1 else 0
    case InBucket(k) => if !r.pc.AtBucket? && Bucket(r.lat) == k then 1 else 0
    case Counted => if Left(r.pc) < 6 then 1 else 0
    case Summed => if Left(r.pc) < 5 then r.lat else 0
    case Work(scale, min, max) => Left(r.pc) * scale + if Stale(r, min, max) then 1 else 0
  }

  function Tally(recs: seq<Recorder>, w: What): nat {
    if recs == [] then 0 else Tally(recs[..|recs| - 1], w) + Weight(recs[|recs| - 1], w)
  }

  lemma {:induction false} TallyUpdate(recs: seq<Recorder>, i: nat, r: Recorder, w: What)
    requires i < |recs|
    ensures Tally(recs[i := r], w) == Tally(recs, w) - Weight(recs[i], w) + Weight(r, w)
  {
    var n := |recs| - 1;
    if i == n {
      assert recs[i := r][..n] == recs[..n];
    } else {
      assert recs[i := r][..n] == recs[..n][i := r];
      TallyUpdate(recs[..n], i, r, w);
    }
  }

  ghost predicate Heavier(recs: seq<Recorder>, v: What, w: What, slack: nat) {
    forall i :: 0 <= i < |recs| ==> Weight(recs[i], v) <= Weight(recs[i], w) + slack
  }

  lemma {:induction false} Distribute(n: nat, slack: nat)
    ensures (n + 1) * slack == n * slack + slack
  {
  }

  lemma {:induction false} TallyMonotone(recs: seq<Recorder>, v: What, w: What, slack: nat)
    requires Heavier(recs, v, w, slack)
    ensures Tally(recs, v) <= Tally(recs, w) + |recs| * slack
  {
    if recs != [] {
      var n := |recs| - 1;
      TallyMonotone(recs[..n], v, w, slack);
      Distribute(n, slack);
    }
  }

  lemma {:induction false} TallyBucket(recs: seq<Recorder>, k: nat)
    ensures Tally(recs, UpTo(k + 1)) == Tally(recs, UpTo(k)) + Tally(recs, InBucket(k))
    ensures Tally(recs, UpTo(0)) == 0
    ensures Tally(recs, UpTo(k)) <= |recs|
  {
    if recs != [] {
      TallyBucket(recs[..|recs| - 1], k);
    }
  }

  // ------------------------------------------------------------------ invariant

  /** No 64-bit counter can wrap: enough for summarize's products too. */
  predicate Few(n: nat) { n * 10000 < U64 }

  function Prefix(b: seq<nat>, k: nat): nat
    requires k <= |b|
  {
    if k == 0 then 0 else Prefix(b, k - 1) + b[k - 1]
  }

  function Rest(b: seq<nat>, k: nat): nat
    requires k <= |b|
    decreases |b| - k
  {
    if k == |b| then 0 else b[k] + Rest(b, k + 1)
  }

  lemma {:induction false} PrefixAndRest(b: seq<nat>, k: nat)
    requires k <= |b|
    ensures Prefix(b, k) + Rest(b, k) == Rest(b, 0)
  {
    if k > 0 {
      PrefixAndRest(b, k - 1);
    }
  }

  ghost predicate Grown(b: seq<nat>, b': seq<nat>) {
    |b| == |b'| && forall k :: 0 <= k < |b| ==> b[k] <= b'[k]
  }

  lemma {:induction false} GrownSums(b: seq<nat>, b': seq<nat>, k: nat)
    requires Grown(b, b') && k <= |b|
    ensures Prefix(b, k) <= Prefix(b', k) && Rest(b, k) <= Rest(b', k)
  {
    GrownPrefix(b, b', k);
    GrownRest(b, b', k);
  }

  lemma {:induction false} GrownPrefix(b: seq<nat>, b': seq<nat>, k: nat)
    requires Grown(b, b') && k <= |b|
    ensures Prefix(b, k) <= Prefix(b', k)
  {
    if k > 0 {
      GrownPrefix(b, b', k - 1);
    }
  }

  lemma {:induction false} GrownRest(b: seq<nat>, b': seq<nat>, k: nat)
    requires Grown(b, b') && k <= |b|
    ensures Rest(b, k) <= Rest(b', k)
    decreases |b| - k
  {
    if k < |b| {
      GrownRest(b, b', k + 1);
    }
  }

  ghost predicate Counts(h: Hist, recs: seq<Recorder>) {
    && |h.buckets| == BUCKETS
    && (forall k :: 0 <= k < BUCKETS ==> h.buckets[k] == Tally(recs, InBucket(k)))
    && h.count == Tally(recs, Counted)
    && h.sum == Tally(recs, Summed) % U64
  }

  predicate MinSeen(h: Hist, r: Recorder) {
    && (r.pc.TestingMin? ==> h.min <= r.seen)
    && (Left(r.pc) < 3 ==> h.min <= r.lat)
  }

  predicate MaxSeen(h: Hist, r: Recorder) {
    && (r.pc.TestingMax? ==> r.seen <= h.max)
    && (r.pc.Returned? ==> r.lat <= h.max)
  }

  ghost predicate LeastSeen(h: Hist, recs: seq<Recorder>, lats: seq<Nanos>) {
    (forall i :: 0 <= i < |recs| ==> MinSeen(h, recs[i])) && (h.min == U64_MAX || h.min in lats)
  }

  ghost predicate GreatestSeen(h: Hist, recs: seq<Recorder>, lats: seq<Nanos>) {
    (forall i :: 0 <= i < |recs| ==> MaxSeen(h, recs[i])) && (h.max == 0 || h.max in lats)
  }

  ghost predicate Recording(h: Hist, recs: seq<Recorder>, lats: seq<Nanos>) {
    && |recs| == |lats| && (forall i :: 0 <= i < |recs| ==> recs[i].lat == lats[i])
    && Counts(h, recs) && LeastSeen(h, recs, lats) && GreatestSeen(h, recs, lats)
  }

  lemma {:induction false} Untouched(recs: seq<Recorder>, w: What)
    requires (forall i :: 0 <= i < |recs| ==> recs[i].pc.AtBucket?) && !w.Work?
    ensures Tally(recs, w) == 0
  {
    if recs != [] {
      Untouched(recs[..|recs| - 1], w);
    }
  }

  lemma {:induction false} StartRecording(lats: seq<Nanos>)
    ensures Recording(Start(lats).hist, Start(lats).recs, lats)
  {
    var s := Start(lats);
    forall k | 0 <= k < BUCKETS ensures s.hist.buckets[k] == Tally(s.recs, InBucket(k)) {
      Untouched(s.recs, InBucket(k));
    }
    Untouched(s.recs, Counted);
    Untouched(s.recs, Summed);
  }

  lemma {:induction false} StepCounts(h: Hist, recs: seq<Recorder>, i: nat)
    requires Counts(h, recs) && i < |recs| && Few(|recs|) && recs[i].lat <= U64_MAX
    ensures var (h', r') := RecordStep(h, recs[i]); Counts(h', recs[i := r']) && Grown(h.buckets, h'.buckets)
  {
    var (h', r') := RecordStep(h, recs[i]);
    forall k | 0 <= k < BUCKETS
      ensures h'.buckets[k] == Tally(recs[i := r'], InBucket(k)) && h.buckets[k] <= h'.buckets[k]
    {
      StepBucket(h, recs, i, k);
    }
    StepCount(h, recs, i);
    StepSum(h, recs, i);
  }

  lemma {:induction false} StepBucket(h: Hist, recs: seq<Recorder>, i: nat, k: nat)
    requires |h.buckets| == BUCKETS && k < BUCKETS && h.buckets[k] == Tally(recs, InBucket(k))
    requires i < |recs| && Few(|recs|)
    ensures var (h', r') := RecordStep(h, recs[i]);
      h'.buckets[k] == Tally(recs[i := r'], InBucket(k)) && h.buckets[k] <= h'.buckets[k]
  {
    var (h', r') := RecordStep(h, recs[i]);
    TallyUpdate(recs, i, r', InBucket(k));
    TallyFew(recs[i := r'], InBucket(k));
  }

  lemma {:induction false} StepCount(h: Hist, recs: seq<Recorder>, i: nat)
    requires |h.buckets| == BUCKETS && h.count == Tally(recs, Counted) && i < |recs| && Few(|recs|)
    ensures var (h', r') := RecordStep(h, recs[i]); h'.count == Tally(recs[i := r'], Counted)
  {
    var (h', r') := RecordStep(h, recs[i]);
    TallyUpdate(recs, i, r', Counted);
    TallyFew(recs[i := r'], Counted);
  }

  lemma {:induction false} StepSum(h: Hist, recs: seq<Recorder>, i: nat)
    requires |h.buckets| == BUCKETS && h.sum == Tally(recs, Summed) % U64 && i < |recs| && recs[i].lat <= U64_MAX
    ensures var (h', r') := RecordStep(h, recs[i]); h'.sum == Tally(recs[i := r'], Summed) % U64
  {
    var (h', r') := RecordStep(h, recs[i]);
    TallyUpdate(recs, i, r', Summed);
    if recs[i].pc.AtSum? {
      SumWraps(Tally(recs, Summed), recs[i].lat);
    }
  }

  lemma {:induction false} TallyFew(recs: seq<Recorder>, w: What)
    requires w.InBucket? || w.Counted?
    ensures Tally(recs, w) <= |recs|
  {
    if recs != [] {
      TallyFew(recs[..|recs| - 1], w);
    }
  }

  lemma {:induction false} SumWraps(a: nat, b: Nanos)
    ensures Add64(a % U64, b) == (a + b) % U64
  {
    var q, x := a / U64, a % U64 + b;
    assert a + b == U64 * q + x;
    if x < U64 {
      ModShift(x, q);
    } else {
      ModShift(x - U64, q + 1);
    }
  }

  lemma {:induction false} ModShift(x: nat, q: nat)
    requires x < U64
    ensures (x + U64 * q) % U64 == x
  {
  }

  lemma {:induction false} StepLeast(h: Hist, recs: seq<Recorder>, lats: seq<Nanos>, i: nat)
    requires LeastSeen(h, recs, lats) && i < |recs| == |lats| && recs[i].lat == lats[i] && |h.buckets| == BUCKETS
    ensures var (h', r') := RecordStep(h, recs[i]); LeastSeen(h', recs[i := r'], lats)
  {
    var (h', r') := RecordStep(h, recs[i]);
    assert MinSeen(h, recs[i]) && MinSeen(h', r') && h'.min <= h.min;
  }

  lemma {:induction false} StepGreatest(h: Hist, recs: seq<Recorder>, lats: seq<Nanos>, i: nat)
    requires GreatestSeen(h, recs, lats) && i < |recs| == |lats| && recs[i].lat == lats[i] && |h.buckets| == BUCKETS
    ensures var (h', r') := RecordStep(h, recs[i]); GreatestSeen(h', recs[i := r'], lats)
  {
    var (h', r') := RecordStep(h, recs[i]);
    assert MaxSeen(h, recs[i]) && MaxSeen(h', r') && h.max <= h'.max;
  }

  lemma {:induction false} StepRecording(h: Hist, recs: seq<Recorder>, lats: seq<Nanos>, i: nat)
    requires Recording(h, recs, lats) && i < |recs| && Few(|recs|)
    ensures var (h', r') := RecordStep(h, recs[i]); Recording(h', recs[i := r'], lats)
  {
    StepCounts(h, recs, i);
    StepLeast(h, recs, lats, i);
    StepGreatest(h, recs, lats, i);
  }

  /** Bucket totals run ahead of count, at every moment. */
  lemma {:induction false} BucketsLeadCount(h: Hist, recs: seq<Recorder>)
    requires Counts(h, recs)
    ensures h.count <= Rest(h.buckets, 0) == Prefix(h.buckets, BUCKETS) <= |recs|
  {
    PrefixTallies(h, recs, BUCKETS);
    PrefixAndRest(h.buckets, BUCKETS);
    TallyMonotone(recs, Counted, UpTo(BUCKETS), 0);
    TallyBucket(recs, BUCKETS);
  }

  lemma {:induction false} PrefixTallies(h: Hist, recs: seq<Recorder>, k: nat)
    requires Counts(h, recs) && k <= BUCKETS
    ensures Prefix(h.buckets, k) == Tally(recs, UpTo(k)) <= |recs|
  {
    TallyBucket(recs, k);
    if k > 0 {
      TallyBucket(recs, k - 1);
      PrefixTallies(h, recs, k - 1);
    }
  }

  /** What a summarise in progress knows, whatever the recorders do meanwhile. */
  ghost predicate Summarising(h: Hist, n: nat, s: Summary)
    requires |h.buckets| == BUCKETS
  {
    && (!s.pc.ReadCount? ==> s.total <= n)
    && (s.pc.ReadCount? || s.pc.ReadSum? || s.pc.ReadMin? || s.pc.ReadMax? ==>
        s.cumulative == 0 && s.total <= Rest(h.buckets, 0) && s.p50.NotYet? && s.p99.NotYet? && s.p999.NotYet?)
    && (s.pc.ReadBucket? ==>
        && 0 < s.total && s.pc.i < BUCKETS && Ordered(s, s.pc.i)
        && s.total <= s.cumulative + Rest(h.buckets, s.pc.i) && s.cumulative <= Prefix(h.buckets, s.pc.i))
    && (s.pc.Finished? && s.total > 0 ==>
        && s.total <= s.cumulative <= Prefix(h.buckets, BUCKETS) && Ordered(s, BUCKETS))
  }

  /** Percentiles are crossed exactly when the cumulative count has reached their fraction, in
      order, at one of the buckets read so far. */
  predicate Ordered(s: Summary, i: nat) {
    && Known(s, s.p50, 500, 1000, i) && Known(s, s.p99, 990, 1000, i) && Known(s, s.p999, 9990, 10000, i)
    && (s.p99.At? ==> s.p50.At? && s.p50.ns <= s.p99.ns)
    && (s.p999.At? ==> s.p99.At? && s.p99.ns <= s.p999.ns)
  }

  predicate Known(s: Summary, p: Percentile, num: nat, den: nat, i: nat) {
    && (p.At? <==> i > 0 && s.cumulative * den >= s.total * num)
    && (p.At? ==> i > 0 && p.ns <= Bound(AtLeastOne(i) - 1))
  }

  lemma {:induction false} BoundsGrow(i: nat)
    requires i < BUCKETS
    ensures Bound(AtLeastOne(i) - 1) <= Bound(i)
  {
    if i == BUCKETS - 1 {
      Pow2Sixteen(0);
      Pow2Grows(i, 16);
    } else if i > 0 {
      Pow2Grows(i, i + 1);
    }
  }

  /** One percentile across the read of bucket i. */
  lemma {:induction false} KnownStep(s: Summary, s': Summary, p: Percentile, now: bool, num: nat, den: nat, i: nat)
    requires i < BUCKETS && Known(s, p, num, den, i)
    requires s'.total == s.total && s.cumulative * den <= s'.cumulative * den
    requires now <==> s'.cumulative * den >= s.total * num
    ensures Known(s', Crossed(p, now, i), num, den, i + 1)
    ensures p.At? ==> s'.cumulative * den >= s.total * num
  {
    BoundsGrow(i);
  }

  lemma {:induction false} ReachesExactly(c: nat, den: nat, total: nat, num: nat)
    requires c * den < U64 && total * num < U64
    ensures Reaches(c, den, total, num) <==> c * den >= total * num
  {
  }

  lemma {:induction false} CrossedStep(s: Summary, s': Summary, p: Percentile, num: nat, den: nat, i: nat)
    requires i < BUCKETS && Known(s, p, num, den, i) && s'.total == s.total
    requires s.cumulative * den <= s'.cumulative * den < U64 && s.total * num < U64
    ensures Known(s', Crossed(p, Reaches(s'.cumulative, den, s.total, num), i), num, den, i + 1)
  {
    ReachesExactly(s'.cumulative, den, s.total, num);
    KnownStep(s, s', p, Reaches(s'.cumulative, den, s.total, num), num, den, i);
  }

  lemma {:induction false} OrderedStep(h: Hist, s: Summary, n: nat)
    requires |h.buckets| == BUCKETS && s.pc.ReadBucket? && s.pc.i < BUCKETS && Ordered(s, s.pc.i)
    requires Few(n) && s.cumulative + h.buckets[s.pc.i] <= n && s.total <= n
    ensures Ordered(SummaryStep(h, s), s.pc.i + 1)
    ensures SummaryStep(h, s).cumulative == s.cumulative + h.buckets[s.pc.i]
  {
    var s', i := SummaryStep(h, s), s.pc.i;
    var c := s.cumulative + h.buckets[i];
    assert s'.cumulative == c;
    assert c * 1000 < U64 && c * 10000 < U64 && s.total * 500 < U64 && s.total * 990 < U64 && s.total * 9990 < U64;
    CrossedStep(s, s', s.p50, 500, 1000, i);
    CrossedStep(s, s', s.p99, 990, 1000, i);
    CrossedStep(s, s', s.p999, 9990, 10000, i);
    CrossedInOrder(s, s', i);
  }

  /** Percentiles crossed in one step keep their order: either already crossed, at a lower
      bound, or crossed together. */
  lemma {:induction false} CrossedInOrder(s: Summary, s': Summary, i: nat)
    requires i < BUCKETS && Ordered(s, i) && s'.total == s.total
    requires Known(s', s'.p50, 500, 1000, i + 1) && Known(s', s'.p99, 990, 1000, i + 1)
    requires Known(s', s'.p999, 9990, 10000, i + 1)
    requires CrossedFrom(s.p50, s'.p50, i) && CrossedFrom(s.p99, s'.p99, i) && CrossedFrom(s.p999, s'.p999, i)
    ensures Ordered(s', i + 1)
  {
    BoundsGrow(i);
  }

  predicate CrossedFrom(p: Percentile, p': Percentile, i: nat) { p' == p || (p.NotYet? && p' == At(Bound(i))) }

  lemma {:induction false} ReadKeeps(h: Hist, recs: seq<Recorder>, s: Summary)
    requires Counts(h, recs) && Few(|recs|) && Summarising(h, |recs|, s)
    ensures Summarising(h, |recs|, SummaryStep(h, s))
  {
    BucketsLeadCount(h, recs);
    if s.pc.ReadBucket? {
      PrefixTallies(h, recs, s.pc.i + 1);
      ReadBucketKeeps(h, |recs|, s);
    }
  }

  lemma {:induction false} ReadBucketKeeps(h: Hist, n: nat, s: Summary)
    requires |h.buckets| == BUCKETS && Few(n) && s.pc.ReadBucket? && Summarising(h, n, s)
    requires Prefix(h.buckets, s.pc.i + 1) <= n
    ensures Summarising(h, n, SummaryStep(h, s))
  {
    var i := s.pc.i;
    OrderedStep(h, s, n);
    assert Rest(h.buckets, i) == h.buckets[i] + Rest(h.buckets, i + 1);
    assert Rest(h.buckets, BUCKETS) == 0;
  }

  lemma {:induction false} GrowthKeeps(h: Hist, h': Hist, n: nat, s: Summary)
    requires |h.buckets| == BUCKETS && Grown(h.buckets, h'.buckets) && Summarising(h, n, s)
    ensures Summarising(h', n, s)
  {
    GrownSums(h.buckets, h'.buckets, 0);
    GrownSums(h.buckets, h'.buckets, BUCKETS);
    if s.pc.ReadBucket? {
      GrownSums(h.buckets, h'.buckets, s.pc.i);
    }
  }

  ghost predicate Inv(lats: seq<Nanos>, s: Sys) {
    Shape(s) && Recording(s.hist, s.recs, lats) && Summarising(s.hist, |lats|, s.summary)
  }

  lemma {:induction false} StepKeeps(lats: seq<Nanos>, s: Sys, a: Action)
    requires Few(|lats|) && Inv(lats, s)
    ensures Inv(lats, Step(s, a))
  {
    match a {
      case Summarise => ReadKeeps(s.hist, s.recs, s.summary);
      case Record(i) =>
        if i < |s.recs| {
          StepRecording(s.hist, s.recs, lats, i);
          StepCounts(s.hist, s.recs, i);
          GrowthKeeps(s.hist, RecordStep(s.hist, s.recs[i]).0, |lats|, s.summary);
        }
    }
  }

  lemma {:induction false} RunKeeps(lats: seq<Nanos>, acts: seq<Action>)
    requires Few(|lats|)
    ensures Inv(lats, RunOf(lats, acts))
  {
    if acts == [] {
      StartRecording(lats);
    } else {
      RunKeeps(lats, acts[..|acts| - 1]);
      StepKeeps(lats, RunOf(lats, acts[..|acts| - 1]), acts[|acts| - 1]);
    }
  }

  // --------------------------------------------------- what every run promises

  /** A summarise that reads a count above zero finds all three percentiles, in order, however
      many recorders are still at work. */
  lemma {:induction false} SummariesComplete(lats: seq<Nanos>, acts: seq<Action>)
    requires Few(|lats|)
    ensures var s := RunOf(lats, acts).summary;
      s.pc.Finished? && s.total > 0 ==>
        && s.p50.At? && s.p99.At? && s.p999.At?
        && s.p50.ns <= s.p99.ns <= s.p999.ns
  {
    RunKeeps(lats, acts);
  }

  /** At every moment the buckets hold at least count samples, and none that was not recorded. */
  lemma {:induction false} TotalsLeadCount(lats: seq<Nanos>, acts: seq<Action>)
    requires Few(|lats|)
    ensures var h := RunOf(lats, acts).hist; h.count <= Prefix(h.buckets, BUCKETS) <= |lats|
  {
    RunKeeps(lats, acts);
    BucketsLeadCount(RunOf(lats, acts).hist, RunOf(lats, acts).recs);
  }

  function InFirst(lats: seq<Nanos>, k: nat): nat {
    if lats == [] then 0 else InFirst(lats[..|lats| - 1], k) + if Bucket(lats[|lats| - 1]) < k then 1 else 0
  }

  function Below(lats: seq<Nanos>, bound: nat): nat {
    if lats == [] then 0 else Below(lats[..|lats| - 1], bound) + if lats[|lats| - 1] < bound then 1 else 0
  }

  function Total(lats: seq<Nanos>): nat {
    if lats == [] then 0 else Total(lats[..|lats| - 1]) + lats[|lats| - 1]
  }

  predicate IsLeast(lats: seq<Nanos>, m: nat) {
    (forall i :: 0 <= i < |lats| ==> m <= lats[i]) && (if lats == [] then m == U64_MAX else m in lats)
  }

  predicate IsGreatest(lats: seq<Nanos>, m: nat) {
    (forall i :: 0 <= i < |lats| ==> lats[i] <= m) && (if lats == [] then m == 0 else m in lats)
  }

  /** A quiescent histogram that has recorded exactly these samples. */
  ghost predicate Represents(h: Hist, lats: seq<Nanos>) {
    && |h.buckets| == BUCKETS
    && (forall k :: 0 <= k <= BUCKETS ==> Prefix(h.buckets, k) == InFirst(lats, k))
    && h.count == |lats| && h.sum == Total(lats) % U64
    && IsLeast(lats, h.min) && IsGreatest(lats, h.max)
  }

  ghost predicate AllReturned(recs: seq<Recorder>) {
    forall i :: 0 <= i < |recs| ==> recs[i].pc.Returned?
  }

  lemma {:induction false} ReturnedTallies(recs: seq<Recorder>, lats: seq<Nanos>, k: nat)
    requires AllReturned(recs) && |recs| == |lats| && forall i :: 0 <= i < |recs| ==> recs[i].lat == lats[i]
    ensures Tally(recs, UpTo(k)) == InFirst(lats, k)
    ensures Tally(recs, Counted) == |lats| && Tally(recs, Summed) == Total(lats)
  {
    if recs != [] {
      ReturnedTallies(recs[..|recs| - 1], lats[..|lats| - 1], k);
    }
  }

  /** Once every call has returned the histogram is exact: totals, sum, and the true extremes,
      whatever the compare-and-swap loops lost on the way. */
  lemma {:induction false} ReturnedIsExact(lats: seq<Nanos>, acts: seq<Action>)
    requires Few(|lats|) && AllReturned(RunOf(lats, acts).recs)
    ensures Represents(RunOf(lats, acts).hist, lats)
  {
    RunKeeps(lats, acts);
    var s := RunOf(lats, acts);
    forall k | 0 <= k <= BUCKETS ensures Prefix(s.hist.buckets, k) == InFirst(lats, k) {
      PrefixTallies(s.hist, s.recs, k);
      ReturnedTallies(s.recs, lats, k);
    }
    ReturnedTallies(s.recs, lats, 0);
    ReturnedExtremes(s.hist, s.recs, lats);
  }

  lemma {:induction false} ReturnedExtremes(h: Hist, recs: seq<Recorder>, lats: seq<Nanos>)
    requires AllReturned(recs) && Recording(h, recs, lats)
    ensures IsLeast(lats, h.min) && IsGreatest(lats, h.max)
  {
    forall i | 0 <= i < |lats| ensures h.min <= lats[i] <= h.max {
      assert MinSeen(h, recs[i]) && MaxSeen(h, recs[i]) && recs[i].lat == lats[i];
    }
    if lats != [] {
      assert h.min <= lats[0] <= h.max;
      assert lats[0] in lats;
    }
  }

  // ------------------------------------------------------------- the loops end

  /** Atomic operations the recorders can still take. */
  function WorkLeft(s: Sys): nat { Tally(s.recs, Work(|s.recs| + 1, s.hist.min, s.hist.max)) }

  predicate Moves(s: Sys, a: Action) { a.Record? && a.i < |s.recs| && !s.recs[a.i].pc.Returned? }

  /** Every operation of a recorder uses up work: a compare-and-swap fails only after another
      recorder has moved the value, which it does once. */
  lemma {:induction false} WorkDecreases(s: Sys, a: Action)
    requires Shape(s)
    ensures Moves(s, a) ==> WorkLeft(Step(s, a)) < WorkLeft(s)
    ensures !Moves(s, a) ==> WorkLeft(Step(s, a)) == WorkLeft(s)
  {
    if Moves(s, a) {
      var n := |s.recs|;
      var (h', r') := RecordStep(s.hist, s.recs[a.i]);
      var w, w' := Work(n + 1, s.hist.min, s.hist.max), Work(n + 1, h'.min, h'.max);
      TallyUpdate(s.recs, a.i, r', w');
      WeightDrops(s.hist, s.recs[a.i], n + 1);
      if w != w' {
        TallyMonotone(s.recs, w', w, 1);
      }
    } else if a.Record? && a.i < |s.recs| {
      assert s.recs[a.i := s.recs[a.i]] == s.recs;
    }
  }

  lemma {:induction false} WeightDrops(h: Hist, r: Recorder, scale: nat)
    requires |h.buckets| == BUCKETS && !r.pc.Returned? && scale >= 1
    ensures var (h', r') := RecordStep(h, r);
      && Weight(r', Work(scale, h'.min, h'.max)) < Weight(r, Work(scale, h'.min, h'.max))
      && (h.min != h'.min || h.max != h'.max ==>
          Weight(r', Work(scale, h'.min, h'.max)) + scale <= Weight(r, Work(scale, h'.min, h'.max)))
  {
    Distribute(Left(r.pc), scale);
    var (h', r') := RecordStep(h, r);
    if Left(r'.pc) < Left(r.pc) {
      assert Left(r.pc) == Left(r'.pc) + 1;
      Distribute(Left(r'.pc), scale);
    }
  }

  function Moved(lats: seq<Nanos>, acts: seq<Action>): nat {
    if acts == [] then 0
    else Moved(lats, acts[..|acts| - 1])
         + if Moves(RunOf(lats, acts[..|acts| - 1]), acts[|acts| - 1]) then 1 else 0
  }

  lemma {:induction false} StartWork(recs: seq<Recorder>, w: What)
    requires w.Work? && forall i :: 0 <= i < |recs| ==> recs[i].pc.AtBucket?
    ensures Tally(recs, w) == 7 * w.scale * |recs|
  {
    if recs != [] {
      StartWork(recs[..|recs| - 1], w);
    }
  }

  /** Lock freedom with a bound: n concurrent calls take at most 7 n (n + 1) atomic operations
      between them, in any interleaving. */
  lemma {:induction false} RecordsTerminate(lats: seq<Nanos>, acts: seq<Action>)
    ensures Moved(lats, acts) + WorkLeft(RunOf(lats, acts)) <= 7 * (|lats| + 1) * |lats|
    ensures |RunOf(lats, acts).recs| == |lats|
  {
    if acts == [] {
      StartWork(Start(lats).recs, Work(|lats| + 1, U64_MAX, 0));
    } else {
      RecordsTerminate(lats, acts[..|acts| - 1]);
      WorkDecreases(RunOf(lats, acts[..|acts| - 1]), acts[|acts| - 1]);
    }
  }

  // ---------------------------------------------------------------- percentiles

  /** ns is the least reported boundary strictly above at least num/den of the samples, or
      U64_MAX when only the overflow bucket gets that far. */
  ghost predicate IsPercentile(lats: seq<Nanos>, ns: nat, num: nat, den: nat) {
    || (exists i :: 0 <= i < BUCKETS - 1 && ns == Bound(i)
          && Below(lats, ns) * den >= |lats| * num && NoneBefore(lats, i, num, den))
    || (ns == U64_MAX && NoneBefore(lats, BUCKETS - 1, num, den))
  }

  ghost predicate NoneBefore(lats: seq<Nanos>, i: nat, num: nat, den: nat) {
    forall j :: 0 <= j < i ==> Below(lats, Bound(j)) * den < |lats| * num
  }

  lemma {:induction false} InFirstIsBelow(lats: seq<Nanos>, i: nat)
    requires i < BUCKETS - 1
    ensures InFirst(lats, i + 1) == Below(lats, Bound(i))
  {
    if lats != [] {
      InFirstIsBelow(lats[..|lats| - 1], i);
      BucketBelowBound(lats[|lats| - 1], i);
    }
  }

  lemma {:induction false} InFirstAll(lats: seq<Nanos>)
    ensures InFirst(lats, BUCKETS) == |lats|
  {
    if lats != [] {
      InFirstAll(lats[..|lats| - 1]);
    }
  }

  /** summarize with nobody else at work, after n of its reads. */
  function Reads(h: Hist, n: nat): (s: Summary)
    requires |h.buckets| == BUCKETS
    ensures s.pc.ReadBucket? ==> s.pc.i < BUCKETS
  {
    if n == 0 then FRESH else SummaryStep(h, Reads(h, n - 1))
  }

  /** Four scalars and sixteen buckets. */
  function SummaryOf(h: Hist): Summary
    requires |h.buckets| == BUCKETS
  {
    Reads(h, 20)
  }

  predicate Short(lats: seq<Nanos>, j: nat, num: nat, den: nat) {
    InFirst(lats, j + 1) * den < |lats| * num
  }

  /** Percentile p after the first i buckets: crossed at the first bucket that gets there. */
  ghost predicate Found(lats: seq<Nanos>, p: Percentile, num: nat, den: nat, i: nat) {
    match p
    case NotYet => forall j :: 0 <= j < i ==> Short(lats, j, num, den)
    case At(ns) =>
      exists j :: 0 <= j < i && FirstAt(lats, j, ns, num, den)
  }

  ghost predicate FirstAt(lats: seq<Nanos>, j: nat, ns: nat, num: nat, den: nat) {
    ns == Bound(j) && !Short(lats, j, num, den) && forall k :: 0 <= k < j ==> Short(lats, k, num, den)
  }

  lemma {:induction false} FoundStep(lats: seq<Nanos>, p: Percentile, now: bool, num: nat, den: nat, i: nat)
    requires i < BUCKETS && Found(lats, p, num, den, i) && (now <==> !Short(lats, i, num, den))
    ensures Found(lats, Crossed(p, now, i), num, den, i + 1)
  {
    if p.NotYet? && now {
      assert FirstAt(lats, i, Bound(i), num, den);
    }
  }

  ghost predicate ReadUpTo(h: Hist, lats: seq<Nanos>, i: nat, s: Summary) {
    && s.pc == (if i < BUCKETS then ReadBucket(i) else Finished)
    && s.total == |lats| && s.sum == h.sum && s.avg == Average(|lats|, h.sum) && s.min == h.min && s.max == h.max
    && s.cumulative == InFirst(lats, i)
    && Found(lats, s.p50, 500, 1000, i) && Found(lats, s.p99, 990, 1000, i) && Found(lats, s.p999, 9990, 10000, i)
  }

  lemma {:induction false} InFirstFew(lats: seq<Nanos>, k: nat)
    ensures InFirst(lats, k) <= |lats| && InFirst(lats, 0) == 0
  {
    if lats != [] {
      InFirstFew(lats[..|lats| - 1], k);
    }
  }

  lemma {:induction false} ReadNext(h: Hist, lats: seq<Nanos>, i: nat, s: Summary)
    requires Represents(h, lats) && Few(|lats|) && i < BUCKETS && ReadUpTo(h, lats, i, s)
    ensures ReadUpTo(h, lats, i + 1, SummaryStep(h, s))
  {
    InFirstFew(lats, i + 1);
    var c, n := InFirst(lats, i + 1), |lats|;
    assert Prefix(h.buckets, i + 1) == Prefix(h.buckets, i) + h.buckets[i];
    assert c == s.cumulative + h.buckets[i];
    ReachesExactly(c, 1000, n, 500);
    ReachesExactly(c, 1000, n, 990);
    ReachesExactly(c, 10000, n, 9990);
    FoundStep(lats, s.p50, Reaches(c, 1000, n, 500), 500, 1000, i);
    FoundStep(lats, s.p99, Reaches(c, 1000, n, 990), 990, 1000, i);
    FoundStep(lats, s.p999, Reaches(c, 10000, n, 9990), 9990, 10000, i);
  }

  lemma {:induction false} ReadScalars(h: Hist, lats: seq<Nanos>)
    requires |h.buckets| == BUCKETS && h.count == |lats| > 0
    ensures ReadUpTo(h, lats, 0, Reads(h, 4))
  {
    InFirstFew(lats, 0);
    assert Reads(h, 1) == SummaryStep(h, FRESH);
    assert Reads(h, 2) == SummaryStep(h, Reads(h, 1));
    assert Reads(h, 3) == SummaryStep(h, Reads(h, 2));
  }

  lemma {:induction false} ReadsUpTo(h: Hist, lats: seq<Nanos>, i: nat)
    requires Represents(h, lats) && Few(|lats|) && lats != [] && i <= BUCKETS
    ensures ReadUpTo(h, lats, i, Reads(h, 4 + i))
  {
    if i == 0 {
      ReadScalars(h, lats);
    } else {
      ReadsUpTo(h, lats, i - 1);
      ReadNext(h, lats, i - 1, Reads(h, 4 + (i - 1)));
    }
  }

  lemma {:induction false} FoundIsPercentile(lats: seq<Nanos>, p: Percentile, num: nat, den: nat)
    requires Found(lats, p, num, den, BUCKETS) && num <= den
    ensures p.At? && IsPercentile(lats, p.ns, num, den)
  {
    InFirstAll(lats);
    Product(num, den, |lats|);
    assert !Short(lats, BUCKETS - 1, num, den);
    var j :| 0 <= j < BUCKETS && FirstAt(lats, j, p.ns, num, den);
    forall k | 0 <= k < j ensures Below(lats, Bound(k)) * den < |lats| * num {
      assert Short(lats, k, num, den);
      InFirstIsBelow(lats, k);
    }
    if j < BUCKETS - 1 {
      InFirstIsBelow(lats, j);
    }
  }

  /** On a quiescent non-empty histogram every percentile is the least boundary strictly above
      its fraction of the samples, and the other fields are exact. */
  lemma {:induction false} PercentilesAreLeast(h: Hist, lats: seq<Nanos>)
    requires Represents(h, lats) && Few(|lats|) && lats != []
    ensures var s := SummaryOf(h);
      && s.pc.Finished? && s.total == |lats| && s.sum == Total(lats) % U64
      && s.avg == Total(lats) % U64 / |lats|
      && IsLeast(lats, s.min) && IsGreatest(lats, s.max)
      && s.p50.At? && IsPercentile(lats, s.p50.ns, 500, 1000)
      && s.p99.At? && IsPercentile(lats, s.p99.ns, 990, 1000)
      && s.p999.At? && IsPercentile(lats, s.p999.ns, 9990, 10000)
  {
    ReadsUpTo(h, lats, BUCKETS);
    var s := SummaryOf(h);
    FoundIsPercentile(lats, s.p50, 500, 1000);
    FoundIsPercentile(lats, s.p99, 990, 1000);
    FoundIsPercentile(lats, s.p999, 9990, 10000);
  }

  /** On a histogram without samples the average and the minimum are zero and there is no
      percentile. */
  lemma {:induction false} NothingToSummarise(h: Hist)
    requires Represents(h, [])
    ensures var s := SummaryOf(h);
      && s.pc.Finished? && s.total == s.sum == s.avg == s.min == s.max == 0
      && s.p50.NotYet? && s.p99.NotYet? && s.p999.NotYet?
  {
    ScalarsRead(h);
    NothingToRead(h, 4);
  }

  // ------------------------------------------------------------- the structure

  /** One call of record with nobody else at work. */
  function Recorded(h: Hist, lat: Nanos): Hist
    requires |h.buckets| == BUCKETS
  {
    var b := Bucket(lat);
    Hist(h.buckets[b := Add64(h.buckets[b], 1)], Add64(h.count, 1), Add64(h.sum, lat),
         if lat < h.min then lat else h.min, if lat > h.max then lat else h.max)
  }

  lemma {:induction false} PrefixUpdate(b: seq<nat>, i: nat, v: nat, k: nat)
    requires i < |b| && k <= |b|
    ensures Prefix(b[i := v], k) == Prefix(b, k) + if i < k then v - b[i] else 0
  {
    if k > 0 {
      PrefixUpdate(b, i, v, k - 1);
    }
  }

  lemma {:induction false} PrefixAtLeast(b: seq<nat>, i: nat, k: nat)
    requires i < k <= |b|
    ensures b[i] <= Prefix(b, k)
  {
    if i < k - 1 {
      PrefixAtLeast(b, i, k - 1);
    }
  }

  lemma {:induction false} RecordedRepresents(h: Hist, lats: seq<Nanos>, lat: Nanos)
    requires Represents(h, lats) && Few(|lats| + 1)
    ensures Represents(Recorded(h, lat), lats + [lat])
  {
    var lats', h', b := lats + [lat], Recorded(h, lat), Bucket(lat);
    assert lats'[..|lats|] == lats;
    InFirstFew(lats, BUCKETS);
    PrefixAtLeast(h.buckets, b, BUCKETS);
    forall k | 0 <= k <= BUCKETS ensures Prefix(h'.buckets, k) == InFirst(lats', k) {
      PrefixUpdate(h.buckets, b, h.buckets[b] + 1, k);
    }
    SumWraps(Total(lats), lat);
    RecordedExtremes(lats, lat, h.min, h.max);
  }

  lemma {:induction false} RecordedExtremes(lats: seq<Nanos>, lat: Nanos, min: nat, max: nat)
    requires IsLeast(lats, min) && IsGreatest(lats, max)
    ensures IsLeast(lats + [lat], if lat < min then lat else min)
    ensures IsGreatest(lats + [lat], if lat > max then lat else max)
  {
    var lats' := lats + [lat];
    assert lats'[|lats|] == lat;
    assert forall x :: x in lats ==> x in lats';
  }

  /** struct dmaplane_histogram.  samples is what has been recorded since the last reset. */
  class LatencyHistogram {
    const buckets: array<nat>
    var count: nat
    var sum: nat
    var min: nat
    var max: nat
    ghost var samples: seq<Nanos>

    function State(): Hist
      reads this, buckets
    {
      Hist(buckets[..], count, sum, min, max)
    }

    ghost predicate Valid()
      reads this, buckets
    {
      Represents(State(), samples)
    }

    constructor ()
      ensures Valid() && samples == [] && fresh(buckets)
    {
      buckets := new nat[BUCKETS](_ => 0);
      count, sum, min, max := 0, 0, U64_MAX, 0;
      samples := [];
      new;
      EmptyRepresents(State());
    }

    method Reset()
      requires Valid()
      modifies this, buckets
      ensures Valid() && samples == []
    {
      for i := 0 to BUCKETS
        invariant forall k :: 0 <= k < i ==> buckets[k] == 0
      {
        buckets[i] := 0;
      }
      count, sum, min, max := 0, 0, U64_MAX, 0;
      samples := [];
      EmptyRepresents(State());
    }

    /** record with nobody else at work: each compare-and-swap then succeeds at once. */
    method Record(lat: Nanos)
      requires Valid() && Few(|samples| + 1)
      modifies this, buckets
      ensures Valid() && samples == old(samples) + [lat]
      ensures State() == Recorded(old(State()), lat)
    {
      ghost var was := State();
      RecordedRepresents(was, samples, lat);
      var b := Bucket(lat);
      buckets[b] := Add64(buckets[b], 1);
      assert buckets[..] == Recorded(was, lat).buckets;
      count := Add64(count, 1);
      sum := Add64(sum, lat);
      if lat < min {
        min := lat;
      }
      if lat > max {
        max := lat;
      }
      samples := samples + [lat];
      assert State() == Recorded(was, lat);
    }

    /** summarize with nobody else at work. */
    method Summarize() returns (out: Summary)
      requires Valid()
      ensures out == SummaryOf(State())
    {
      ghost var h := State();
      out := FRESH.(total := count, sum := sum, avg := Average(count, sum),
                    min := if count > 0 then min else 0, max := max);
      ScalarsRead(h);
      if count == 0 {
        NothingToRead(h, 4);
        return out.(pc := Finished);
      }
      var cumulative, p50, p99, p999 := 0, NotYet, NotYet, NotYet;
      for i := 0 to BUCKETS
        invariant Reads(h, 4 + i) == out.(cumulative := cumulative, p50 := p50, p99 := p99, p999 := p999,
                                          pc := if i < BUCKETS then ReadBucket(i) else Finished)
      {
        cumulative := Add64(cumulative, buckets[i]);
        p50 := Crossed(p50, Reaches(cumulative, 1000, out.total, 500), i);
        p99 := Crossed(p99, Reaches(cumulative, 1000, out.total, 990), i);
        p999 := Crossed(p999, Reaches(cumulative, 10000, out.total, 9990), i);
        assert Reads(h, 4 + (i + 1)) == SummaryStep(h, Reads(h, 4 + i));
      }
      out := out.(cumulative := cumulative, p50 := p50, p99 := p99, p999 := p999, pc := Finished);
    }
  }

  lemma {:induction false} EmptyRepresents(h: Hist)
    requires |h.buckets| == BUCKETS && (forall k :: 0 <= k < BUCKETS ==> h.buckets[k] == 0)
    requires h.count == 0 && h.sum == 0 && h.min == U64_MAX && h.max == 0
    ensures Represents(h, [])
  {
    forall k | 0 <= k <= BUCKETS ensures Prefix(h.buckets, k) == 0 {
      PrefixZero(h.buckets, k);
    }
  }

  lemma {:induction false} PrefixZero(b: seq<nat>, k: nat)
    requires k <= |b| && forall i :: 0 <= i < |b| ==> b[i] == 0
    ensures Prefix(b, k) == 0
  {
    if k > 0 {
      PrefixZero(b, k - 1);
    }
  }

  lemma {:induction false} ScalarsRead(h: Hist)
    requires |h.buckets| == BUCKETS
    ensures Reads(h, 4) == FRESH.(total := h.count, sum := h.sum, avg := Average(h.count, h.sum),
                                  min := if h.count > 0 then h.min else 0, max := h.max,
                                  pc := if h.count == 0 then Finished else ReadBucket(0))
  {
    assert Reads(h, 1) == SummaryStep(h, FRESH);
    assert Reads(h, 2) == SummaryStep(h, Reads(h, 1));
    assert Reads(h, 3) == SummaryStep(h, Reads(h, 2));
  }

  lemma {:induction false} NothingToRead(h: Hist, n: nat)
    requires |h.buckets| == BUCKETS && n <= 20 && Reads(h, n).pc.Finished?
    ensures Reads(h, 20) == Reads(h, n)
    decreases 20 - n
  {
    if n < 20 {
      NothingToRead(h, n + 1);
    }
  }
}
