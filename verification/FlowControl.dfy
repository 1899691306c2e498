/** Credit flow control with watermark hysteresis, and the sustained streaming loop
    (driver/flow_control.c). */
module FlowControl {
  import opened Arithmetic

  const TS_RING_SIZE: nat := 128

  // ------------------------------------------------------------- configuration

  datatype Params = Params(maxCredits: nat, high: nat, low: nat)

  /** dev->flow. */
  datatype FlowState = FlowState(credits: int, maxCredits: nat, high: nat, low: nat, configured: bool, paused: bool)

  predicate Accepts(p: Params) {
    0 < p.maxCredits <= 128 && p.high <= p.maxCredits && p.low < p.high && p.low != 0
  }

  /** What every configuration satisfies, however it was made: CQ depth, and room between the
      watermarks. */
  predicate GoodConfig(f: FlowState) {
    f.configured && 1 <= f.high <= f.maxCredits <= 128 && f.low < f.high
  }

  function AutoConfigured(queueDepth: nat): FlowState {
    var doubled := queueDepth * 2 % U32;
    var max := if doubled > 128 then 128 else if doubled < 2 then 2 else doubled;
    var high := AtLeastOne(max * 3 / 4);
    var low := AtLeastOne(max / 4);
    FlowState(max, max, high, if low >= high then high - 1 else low, true, false)
  }

  lemma {:induction false} AutoConfiguredIsGood(queueDepth: nat)
    ensures GoodConfig(AutoConfigured(queueDepth))
    ensures AutoConfigured(queueDepth).credits == AutoConfigured(queueDepth).maxCredits
  {
    var d := queueDepth * 2 % U32;
    var max := if d > 128 then 128 else if d < 2 then 2 else d;
    assert 2 <= max <= 128;
  }

  /** For the queue depths that sustained streaming accepts: twice the depth, three quarters and one
      quarter of that, rounded down. */
  lemma {:induction false} AutoConfiguredInRange(queueDepth: nat)
    requires 1 <= queueDepth <= 64
    ensures AutoConfigured(queueDepth) ==
      FlowState(2 * queueDepth, 2 * queueDepth, 3 * queueDepth / 2, queueDepth / 2, true, false)
  {
    assert queueDepth * 2 % U32 == 2 * queueDepth;
  }

  // ------------------------------------------------------------------- credits

  datatype Mark = Sent | Done | HighMark | LowMark

  function InFlight(f: FlowState): int { f.maxCredits - f.credits }

  /** dmaplane_flow_can_send: the answer, the flow state after it, and the watermark event. */
  function CanSend(f: FlowState): (bool, FlowState, seq<Mark>) {
    if !f.configured then (true, f, [])
    else if f.paused then
      if InFlight(f) <= f.low then (true, f.(paused := false), [LowMark]) else (false, f, [])
    else if InFlight(f) >= f.high then (false, f.(paused := true), [HighMark])
    else (f.credits > 0, f, [])
  }

  /** Backpressure never stalls with nothing in flight, and never lets a send through without
      a credit or past the high watermark. */
  lemma {:induction false} CanSendIsSafe(f: FlowState)
    requires GoodConfig(f) && f.credits <= f.maxCredits
    ensures CanSend(f).0 ==> f.credits > 0 && InFlight(f) < f.high
    ensures !CanSend(f).0 ==> InFlight(f) > 0
    ensures CanSend(f).1.credits == f.credits && GoodConfig(CanSend(f).1)
  {
  }

  /** dev->flow in memory, with the operations of the driver. */
  class Flow {
    var credits: int
    var maxCredits: nat
    var high: nat
    var low: nat
    var configured: bool
    var paused: bool
    var highEvents: nat
    var lowEvents: nat

    function State(): FlowState
      reads this
    {
      FlowState(credits, maxCredits, high, low, configured, paused)
    }

    /** dmaplane_flow_configure; false is -EINVAL. */
    method Configure(p: Params) returns (ok: bool)
      modifies this
      ensures ok <==> 1 <= p.low < p.high <= p.maxCredits <= 128
      ensures ok ==> State() == FlowState(p.maxCredits, p.maxCredits, p.high, p.low, true, false) && GoodConfig(State())
      ensures !ok ==> State() == old(State())
    {
      if p.maxCredits == 0 || p.maxCredits > 128 {
        return false;
      }
      if p.high > p.maxCredits {
        return false;
      }
      if p.low >= p.high {
        return false;
      }
      if p.low == 0 {
        return false;
      }
      maxCredits, high, low := p.maxCredits, p.high, p.low;
      credits, paused, configured := p.maxCredits, false, true;
      ok := true;
    }

    /** sustained_auto_configure. */
    method AutoConfigure(queueDepth: nat)
      modifies this
      ensures State() == AutoConfigured(queueDepth) && GoodConfig(State())
      ensures 1 <= queueDepth <= 64 ==>
        && credits == maxCredits == Least(2 * queueDepth, 128) && !paused
        && 4 * high <= 3 * maxCredits < 4 * (high + 1) && 4 * low <= maxCredits < 4 * (low + 1)
    {
      AutoConfiguredIsGood(queueDepth);
      if 1 <= queueDepth <= 64 {
        AutoConfiguredInRange(queueDepth);
      }
      var max := queueDepth * 2 % U32;
      if max > 128 {
        max := 128;
      }
      if max < 2 {
        max := 2;
      }
      maxCredits := max;
      high := AtLeastOne(max * 3 / 4);
      low := AtLeastOne(max / 4);
      if low >= high {
        low := high - 1;
      }
      credits, paused, configured := max, false, true;
    }

    method TrySend() returns (ok: bool)
      modifies this
      ensures (ok, State()) == (CanSend(old(State())).0, CanSend(old(State())).1)
      ensures var inFlight := old(maxCredits) - old(credits);
        && (ok <==> !configured || if old(paused) then inFlight <= low else inFlight < high && credits > 0)
        && (paused <==> if !configured then old(paused) else if old(paused) then inFlight > low else inFlight >= high)
        && State() == old(State()).(paused := paused)
      ensures highEvents == old(highEvents) + |CanSend(old(State())).2| - (lowEvents - old(lowEvents))
      ensures lowEvents == old(lowEvents) + if CanSend(old(State())).2 == [LowMark] then 1 else 0
    {
      if !configured {
        return true;
      }
      var inFlight := maxCredits - credits;
      if paused {
        if inFlight <= low {
          paused := false;
          lowEvents := lowEvents + 1;
          return true;
        }
        return false;
      }
      if inFlight >= high {
        paused := true;
        highEvents := highEvents + 1;
        return false;
      }
      return credits > 0;
    }

    method OnSend()
      modifies this
      ensures State() == old(State()).(credits := old(credits) - 1)
    {
      credits := credits - 1;
    }

    method OnCompletion()
      modifies this
      ensures State() == old(State()).(credits := old(credits) + 1)
    {
      credits := credits + 1;
    }
  }

  // ------------------------------------------------------------- sustained loop

  /** What happens around one turn of the main loop: whether post_send fails, the clock at the
      send, what CQ-A polls, and whether the replenishing post_recv fails. */
  datatype Poll = Nothing | Success | Failure
  datatype Turn = Turn(sendFails: bool, now: nat, poll: Poll, recvFails: bool)

  /** The loop's variables: sent, recvPosted, tsHead and tsTail are 32-bit and wrap.  The last
      six fields record the run for its specification: how often each event happened, the send
      times, the times the completions read back, and the order of events. */
  datatype Run = Run(flow: FlowState, sent: nat, outstanding: nat, recvPosted: nat,
                     tsHead: nat, tsTail: nat, ring: seq<nat>, stopped: bool,
                     nSent: nat, nDone: nat, nRecv: nat,
                     stamps: seq<nat>, readBack: seq<nat>, trace: seq<Mark>)

  function PrePost(f: FlowState, q: nat): nat {
    if 2 * q > f.maxCredits then f.maxCredits else 2 * q
  }

  /** Credits reset, CQs flushed, receives pre-posted. */
  function Begin(f: FlowState, q: nat): Run {
    var pre := PrePost(f, q);
    Run(f.(credits := f.maxCredits, paused := false), 0, 0, pre, 0, 0, seq(TS_RING_SIZE, _ => 0), false,
        0, 0, pre, [], [], [])
  }

  /** The send phase of a turn. */
  function SendPhase(q: nat, r: Run, t: Turn): (r': Run)
    requires |r.ring| == TS_RING_SIZE
    ensures |r'.ring| == TS_RING_SIZE
  {
    var r1 := Asked(r);
    if !CanSend(r.flow).0 || r1.outstanding >= q then r1
    else if t.sendFails then r1.(stopped := true)
    else Posted(r1, t.now)
  }

  function Asked(r: Run): Run {
    r.(flow := CanSend(r.flow).1, trace := r.trace + CanSend(r.flow).2)
  }

  function Posted(r: Run, now: nat): Run
    requires |r.ring| == TS_RING_SIZE
  {
    r.(flow := r.flow.(credits := r.flow.credits - 1),
       ring := r.ring[r.tsHead % TS_RING_SIZE := now], tsHead := (r.tsHead + 1) % U32,
       sent := (r.sent + 1) % U32, outstanding := r.outstanding + 1,
       nSent := r.nSent + 1, stamps := r.stamps + [now], trace := r.trace + [Sent])
  }

  /** The poll phase.  A send completion can only be polled while a send is outstanding. */
  function PollPhase(q: nat, r: Run, t: Turn): (r': Run)
    requires |r.ring| == TS_RING_SIZE
    ensures |r'.ring| == TS_RING_SIZE
  {
    if r.stopped then r
    else match t.poll
      case Nothing => r
      case Failure => r.(stopped := true)
      case Success => if r.outstanding == 0 then r else Replenish(q, t, Completed(r))
  }

  function Completed(r: Run): (r': Run)
    requires |r.ring| == TS_RING_SIZE && r.outstanding > 0
    ensures |r'.ring| == TS_RING_SIZE
  {
    r.(readBack := r.readBack + [r.ring[r.tsTail % TS_RING_SIZE]], tsTail := (r.tsTail + 1) % U32,
       outstanding := r.outstanding - 1, flow := r.flow.(credits := r.flow.credits + 1),
       nDone := r.nDone + 1, trace := r.trace + [Done])
  }

  /** if (recv_posted < sent + qdepth) post a receive, in 32-bit arithmetic. */
  function Replenish(q: nat, t: Turn, r: Run): Run {
    if r.recvPosted >= (r.sent + q) % U32 then r
    else if t.recvFails then r.(stopped := true)
    else r.(recvPosted := (r.recvPosted + 1) % U32, nRecv := r.nRecv + 1)
  }

  function TakeTurn(q: nat, r: Run, t: Turn): Run
    requires |r.ring| == TS_RING_SIZE
  {
    if r.stopped then r else PollPhase(q, SendPhase(q, r, t), t)
  }

  /** The run after any list of turns. */
  function RunOf(f: FlowState, q: nat, turns: seq<Turn>): (r: Run)
    ensures |r.ring| == TS_RING_SIZE
  {
    if turns == [] then Begin(f, q)
    else TakeTurn(q, RunOf(f, q, turns[..|turns| - 1]), turns[|turns| - 1])
  }

  // --------------------------------------------------------- what every run keeps

  function Sends(t: seq<Mark>): nat {
    if t == [] then 0 else Sends(t[..|t| - 1]) + if t[|t| - 1].Sent? then 1 else 0
  }

  function Dones(t: seq<Mark>): nat {
    if t == [] then 0 else Dones(t[..|t| - 1]) + if t[|t| - 1].Done? then 1 else 0
  }

  /** Whether the last watermark event was a pause. */
  predicate PausedAfter(t: seq<Mark>) {
    t != [] && match t[|t| - 1]
      case HighMark => true
      case LowMark => false
      case _ => PausedAfter(t[..|t| - 1])
  }

  /** Event m can follow the events before. */
  predicate Follows(f: FlowState, q: nat, before: seq<Mark>, m: Mark) {
    var inFlight := Sends(before) - Dones(before);
    && 0 <= inFlight <= q
    && match m
       case HighMark => !PausedAfter(before) && inFlight == f.high
       case LowMark => PausedAfter(before) && inFlight <= f.low
       case Sent => !PausedAfter(before) && inFlight < f.high && inFlight < q
       case Done => inFlight >= 1
  }

  ghost predicate Paced(f: FlowState, q: nat, t: seq<Mark>) {
    forall i :: 0 <= i < |t| ==> Follows(f, q, t[..i], t[i])
  }

  lemma {:induction false} PacedGrows(f: FlowState, q: nat, t: seq<Mark>, m: Mark)
    requires Paced(f, q, t) && Follows(f, q, t, m)
    ensures Paced(f, q, t + [m])
    ensures Sends(t + [m]) == Sends(t) + (if m.Sent? then 1 else 0)
    ensures Dones(t + [m]) == Dones(t) + (if m.Done? then 1 else 0)
    ensures PausedAfter(t + [m]) == (m.HighMark? || (!m.LowMark? && PausedAfter(t)))
  {
    var t' := t + [m];
    assert t'[..|t|] == t;
    forall i | 0 <= i < |t'| ensures Follows(f, q, t'[..i], t'[i]) {
      if i < |t| {
        assert t'[..i] == t[..i];
      }
    }
  }

  /** Configuration unchanged, credits conserved, the window respected. */
  predicate Credits(f: FlowState, q: nat, r: Run) {
    && r.flow == f.(credits := r.flow.credits, paused := r.flow.paused)
    && r.flow.credits + r.outstanding == f.maxCredits
    && r.outstanding <= q && r.outstanding <= f.high
    && r.nSent == r.nDone + r.outstanding
  }

  ghost predicate Traced(f: FlowState, q: nat, r: Run) {
    && Paced(f, q, r.trace)
    && Sends(r.trace) == r.nSent && Dones(r.trace) == r.nDone
    && PausedAfter(r.trace) == r.flow.paused
  }

  function Slot(k: nat): (i: nat)
    ensures i < TS_RING_SIZE
  {
    k % TS_RING_SIZE
  }

  /** Timestamp k of the outstanding sends sits in slot k of the ring. */
  ghost predicate Stamped(r: Run) {
    && |r.ring| == TS_RING_SIZE && |r.stamps| == r.nSent && |r.readBack| == r.nDone <= r.nSent
    && r.tsHead == r.nSent % U32 && r.tsTail == r.nDone % U32
    && (forall k :: r.nDone <= k < r.nSent ==> r.ring[Slot(k)] == r.stamps[k])
    && r.readBack == r.stamps[..r.nDone]
  }

  /** Receives posted, against sends and completions, while sent + qdepth fits 32 bits; and
      without that bound, that recv_posted itself never wraps. */
  predicate Receives(f: FlowState, q: nat, r: Run) {
    && r.sent == r.nSent % U32 && r.recvPosted == r.nRecv < U32
    && r.nRecv <= PrePost(f, q) + r.nDone
    && (r.nSent + q < U32 ==> r.nRecv + r.outstanding >= r.nSent + Least(PrePost(f, q), q))
  }

  ghost predicate RunInv(f: FlowState, q: nat, r: Run) {
    Credits(f, q, r) && Traced(f, q, r) && Stamped(r) && Receives(f, q, r)
  }

  lemma {:induction false} BeginInv(f: FlowState, q: nat)
    requires GoodConfig(f) && 1 <= q <= 64
    ensures RunInv(f, q, Begin(f, q))
  {
  }

  lemma {:induction false} RingStep(head: nat, k: nat)
    requires k < head <= k + TS_RING_SIZE - 1
    ensures head % U32 % TS_RING_SIZE == head % TS_RING_SIZE
    ensures k % TS_RING_SIZE != head % TS_RING_SIZE
  {
    Arithmetic.WrapKeepsSlot(head, TS_RING_SIZE, 0x200_0000);
    var a, b := head / 128, head % 128;
    var c, d := k / 128, k % 128;
    assert 128 * c + d < 128 * a + b < 128 * (c + 1) + d;
    assert a == c ==> d < b;
    assert a == c + 1 ==> b < d;
  }

  /** 128 divides 2^32: the ring index is right across the wrap of ts_head and ts_tail. */
  lemma {:induction false} AskedKeeps(f: FlowState, q: nat, r: Run)
    requires GoodConfig(f) && RunInv(f, q, r)
    ensures RunInv(f, q, Asked(r))
  {
    AskedTraced(f, q, r);
  }

  lemma {:induction false} AskedTraced(f: FlowState, q: nat, r: Run)
    requires GoodConfig(f) && Credits(f, q, r) && Traced(f, q, r)
    ensures Traced(f, q, Asked(r))
  {
    var m := CanSend(r.flow).2;
    if m != [] {
      PacedGrows(f, q, r.trace, m[0]);
      assert m == [m[0]];
    } else {
      assert r.trace + m == r.trace;
    }
  }

  lemma {:induction false} PostedKeeps(f: FlowState, q: nat, r: Run, now: nat)
    requires GoodConfig(f) && 1 <= q <= 64 && RunInv(f, q, r)
    requires !r.flow.paused && InFlight(r.flow) < f.high && r.outstanding < q
    ensures RunInv(f, q, Posted(r, now))
    ensures r.nSent + q < U32 ==> Posted(r, now).nSent <= r.nRecv
  {
    PostedStamped(r, now);
    PacedGrows(f, q, r.trace, Sent);
    PostedReceives(f, q, r, now);
  }

  lemma {:induction false} PostedReceives(f: FlowState, q: nat, r: Run, now: nat)
    requires GoodConfig(f) && 1 <= q <= 64 && Credits(f, q, r) && Receives(f, q, r) && |r.ring| == TS_RING_SIZE
    requires InFlight(r.flow) < f.high && r.outstanding < q
    ensures Receives(f, q, Posted(r, now))
    ensures r.nSent + q < U32 ==> r.nSent + 1 <= r.nRecv
  {
    WrapStep(r.nSent);
  }

  lemma {:induction false} PostedStamped(r: Run, now: nat)
    requires Stamped(r) && r.nSent == r.nDone + r.outstanding && r.outstanding < 64
    ensures Stamped(Posted(r, now))
  {
    FreeSlot(r);
    WrapStep(r.nSent);
    assert (r.stamps + [now])[..r.nDone] == r.stamps[..r.nDone];
  }

  lemma {:induction false} FreeSlot(r: Run)
    requires Stamped(r) && r.nSent == r.nDone + r.outstanding && r.outstanding < 64
    ensures r.tsHead % TS_RING_SIZE == Slot(r.nSent)
    ensures forall k :: r.nDone <= k < r.nSent ==> Slot(k) != Slot(r.nSent)
  {
    Arithmetic.WrapKeepsSlot(r.nSent, TS_RING_SIZE, 0x200_0000);
    forall k | r.nDone <= k < r.nSent ensures Slot(k) != Slot(r.nSent) {
      RingStep(r.nSent, k);
    }
  }

  lemma {:induction false} WrapStep(x: nat)
    ensures (x % U32 + 1) % U32 == (x + 1) % U32
  {
  }

  lemma {:induction false} SendKeeps(f: FlowState, q: nat, r: Run, t: Turn)
    requires GoodConfig(f) && 1 <= q <= 64 && RunInv(f, q, r)
    ensures RunInv(f, q, SendPhase(q, r, t))
    ensures SendPhase(q, r, t).nSent <= r.nSent + 1
    ensures r.nSent < SendPhase(q, r, t).nSent && r.nSent + q < U32 ==> SendPhase(q, r, t).nSent <= r.nRecv
  {
    AskedKeeps(f, q, r);
    CanSendIsSafe(r.flow);
    if CanSend(r.flow).0 && r.outstanding < q && !t.sendFails {
      assert !Asked(r).flow.paused;
      PostedKeeps(f, q, Asked(r), t.now);
    }
  }

  lemma {:induction false} CompletedStamped(r: Run)
    requires Stamped(r) && r.nSent == r.nDone + r.outstanding && r.outstanding > 0
    ensures Stamped(Completed(r))
  {
    Arithmetic.WrapKeepsSlot(r.nDone, TS_RING_SIZE, 0x200_0000);
    WrapStep(r.nDone);
    assert r.stamps[..r.nDone + 1] == r.stamps[..r.nDone] + [r.stamps[r.nDone]];
  }

  lemma {:induction false} CompletedKeeps(f: FlowState, q: nat, r: Run)
    requires GoodConfig(f) && RunInv(f, q, r) && r.outstanding > 0
    ensures Credits(f, q, Completed(r)) && Traced(f, q, Completed(r)) && Stamped(Completed(r))
  {
    CompletedStamped(r);
    PacedGrows(f, q, r.trace, Done);
  }

  /** The replenishing test restores the receive bound that the completion loosened. */
  lemma {:induction false} ReplenishReceives(f: FlowState, q: nat, r: Run, t: Turn)
    requires 1 <= q <= 64 && Receives(f, q, r) && r.outstanding > 0 && |r.ring| == TS_RING_SIZE
    requires r.nSent == r.nDone + r.outstanding
    ensures var r' := Replenish(q, t, Completed(r)); r'.stopped || Receives(f, q, r')
  {
  }

  lemma {:induction false} PollKeeps(f: FlowState, q: nat, r: Run, t: Turn)
    requires GoodConfig(f) && 1 <= q <= 64 && RunInv(f, q, r)
    ensures var r' := PollPhase(q, r, t); Kept(f, q, r')
  {
    if !r.stopped && t.poll.Success? && r.outstanding > 0 {
      CompletedKeeps(f, q, r);
      ReplenishReceives(f, q, r, t);
      ReplenishElse(q, Completed(r), t);
    }
  }

  lemma {:induction false} ReplenishElse(q: nat, r: Run, t: Turn)
    ensures var r' := Replenish(q, t, r);
      r' == r.(stopped := r'.stopped, recvPosted := r'.recvPosted, nRecv := r'.nRecv)
  {
  }

  /** After a failed replenish the loop is left, one receive short. */
  ghost predicate Kept(f: FlowState, q: nat, r: Run) {
    Credits(f, q, r) && Traced(f, q, r) && Stamped(r) && (r.stopped || Receives(f, q, r))
  }

  lemma {:induction false} RunKeeps(f: FlowState, q: nat, turns: seq<Turn>)
    requires GoodConfig(f) && 1 <= q <= 64
    ensures Kept(f, q, RunOf(f, q, turns))
  {
    if turns == [] {
      BeginInv(f, q);
    } else {
      var r := RunOf(f, q, turns[..|turns| - 1]);
      var t := turns[|turns| - 1];
      RunKeeps(f, q, turns[..|turns| - 1]);
      if !r.stopped {
        SendKeeps(f, q, r, t);
        PollKeeps(f, q, SendPhase(q, r, t), t);
      }
    }
  }

  // ------------------------------------------------------------ theorems on runs

  /** Every turn of every run: credits and outstanding add up to the configured ceiling, the
      window and the high watermark are respected, the sender is held back only while
      something is in flight, and let through only with a credit. */
  lemma {:induction false} CreditsConserved(f: FlowState, q: nat, turns: seq<Turn>)
    requires GoodConfig(f) && 1 <= q <= 64
    ensures var r := RunOf(f, q, turns);
      && r.flow.credits + r.outstanding == f.maxCredits
      && r.outstanding <= Least(q, f.high)
      && (!CanSend(r.flow).0 ==> r.outstanding > 0)
      && (CanSend(r.flow).0 ==> r.flow.credits > 0 && r.outstanding < f.high)
  {
    RunKeeps(f, q, turns);
    CanSendIsSafe(RunOf(f, q, turns).flow);
  }

  /** Completion k read the time at which send k was posted, and the ring holds exactly the
      outstanding sends. */
  ghost predicate ReadsOwnStamps(r: Run) {
    && |r.readBack| == r.nDone <= r.nSent == |r.stamps|
    && (forall k :: 0 <= k < r.nDone ==> r.readBack[k] == r.stamps[k])
    && (r.tsHead - r.tsTail) % U32 == r.outstanding == r.nSent - r.nDone <= 64
  }

  /** Every completion reads the timestamp its own send wrote, however often the 32-bit ring
      indices have wrapped. */
  lemma {:induction false} CompletionsReadTheirSend(f: FlowState, q: nat, turns: seq<Turn>)
    requires GoodConfig(f) && 1 <= q <= 64
    ensures ReadsOwnStamps(RunOf(f, q, turns))
  {
    RunKeeps(f, q, turns);
    StampsReadBack(f, q, RunOf(f, q, turns));
  }

  lemma {:induction false} StampsReadBack(f: FlowState, q: nat, r: Run)
    requires Stamped(r) && Credits(f, q, r) && q <= 64
    ensures ReadsOwnStamps(r)
  {
    WrappedDifference(r.nSent, r.nDone);
  }

  lemma {:induction false} WrappedDifference(a: nat, b: nat)
    requires 0 <= a - b < U32
    ensures (a % U32 - b % U32) % U32 == a - b
  {
    var p, q := a / U32, b / U32;
    assert a % U32 == a - 0x1_0000_0000 * p && b % U32 == b - 0x1_0000_0000 * q;
    assert p == q || p == q + 1;
  }

  /** Send number n finds a posted receive of its own as long as n + qdepth <= 2^32, and at
      most 2 * qdepth receives are ever posted beyond the polled completions. */
  lemma {:induction false} ReceivesSuffice(f: FlowState, q: nat, turns: seq<Turn>, t: Turn)
    requires GoodConfig(f) && 1 <= q <= 64
    ensures var r := RunOf(f, q, turns); !r.stopped ==>
      && r.nRecv <= r.nDone + 2 * q
      && var r' := SendPhase(q, r, t);
         r'.nSent > r.nSent && r'.nSent + q <= U32 ==> r'.nSent <= r'.nRecv
  {
    RunKeeps(f, q, turns);
    if !RunOf(f, q, turns).stopped {
      SendKeeps(f, q, RunOf(f, q, turns), t);
      SendPostsNoReceive(q, RunOf(f, q, turns), t);
    }
  }

  lemma {:induction false} SendPostsNoReceive(q: nat, r: Run, t: Turn)
    requires |r.ring| == TS_RING_SIZE
    ensures SendPhase(q, r, t).nRecv == r.nRecv
  {
  }

  /** The bound is needed: in every run that gets that far, the 2^32nd send has no receive
      left, because recv_posted < sent + qdepth is compared in 32 bits. */
  lemma {:induction false} SendTwoToThe32Starves(f: FlowState, q: nat, turns: seq<Turn>, t: Turn)
    requires GoodConfig(f) && 1 <= q <= 64
    requires !RunOf(f, q, turns).stopped && SendPhase(q, RunOf(f, q, turns), t).nSent == U32
    ensures SendPhase(q, RunOf(f, q, turns), t).nRecv < U32
  {
    RunKeeps(f, q, turns);
    SendPostsNoReceive(q, RunOf(f, q, turns), t);
  }

  // The last sends before 2^32.

  /** No turn takes back a send or a receive. */
  lemma {:induction false} TurnGrows(q: nat, r: Run, t: Turn)
    requires |r.ring| == TS_RING_SIZE
    ensures r.nSent <= TakeTurn(q, r, t).nSent <= r.nSent + 1 && r.nRecv <= TakeTurn(q, r, t).nRecv
  {
  }

  /** By the time send 2^32 - qdepth is posted, that many receives have been. */
  lemma {:induction false} ManyReceives(f: FlowState, q: nat, turns: seq<Turn>)
    requires GoodConfig(f) && 1 <= q <= 64 && RunOf(f, q, turns).nSent + q >= U32
    ensures RunOf(f, q, turns).nRecv >= U32 - q
  {
    if turns != [] {
      var r, t := RunOf(f, q, turns[..|turns| - 1]), turns[|turns| - 1];
      TurnGrows(q, r, t);
      if r.nSent + q >= U32 {
        ManyReceives(f, q, turns[..|turns| - 1]);
      } else if !r.stopped {
        RunKeeps(f, q, turns[..|turns| - 1]);
        SendKeeps(f, q, r, t);
        SentInSendPhase(q, r, t);
      }
    }
  }

  lemma {:induction false} SentInSendPhase(q: nat, r: Run, t: Turn)
    requires |r.ring| == TS_RING_SIZE && !r.stopped
    ensures TakeTurn(q, r, t).nSent == SendPhase(q, r, t).nSent
  {
  }

  /** sent + qdepth has wrapped: no turn posts a receive until sent comes near recv_posted again. */
  lemma {:induction false} NoMoreReceives(q: nat, r: Run, t: Turn)
    requires |r.ring| == TS_RING_SIZE && r.sent == r.nSent % U32 && r.recvPosted >= q
    requires r.nSent + q >= U32 && TakeTurn(q, r, t).nSent <= U32 && 1 <= q <= 64
    ensures TakeTurn(q, r, t).nRecv == r.nRecv
  {
    if !r.stopped {
      var s := SendPhase(q, r, t);
      SendPostsNoReceive(q, r, t);
      SentInSendPhase(q, r, t);
      SentWraps(q, r, t);
      TurnGrows(q, r, t);
      WrappedSum(s.nSent, q);
    }
  }

  lemma {:induction false} SentWraps(q: nat, r: Run, t: Turn)
    requires |r.ring| == TS_RING_SIZE && r.sent == r.nSent % U32
    ensures var s := SendPhase(q, r, t); s.sent == s.nSent % U32 && s.recvPosted == r.recvPosted
  {
    WrapStep(r.nSent);
  }

  lemma {:induction false} WrappedSum(n: nat, q: nat)
    requires U32 <= n + q && n <= U32 && 1 <= q <= 64
    ensures (n % U32 + q) % U32 <= q
  {
  }

  /** From turn k on, where send 2^32 - qdepth has been posted, the receives are what they were. */
  lemma {:induction false} LateReceives(f: FlowState, q: nat, turns: seq<Turn>, k: nat)
    requires GoodConfig(f) && 1 <= q <= 64 && k <= |turns|
    requires RunOf(f, q, turns[..k]).nSent + q >= U32 && RunOf(f, q, turns).nSent <= U32
    ensures RunOf(f, q, turns).nRecv == RunOf(f, q, turns[..k]).nRecv
    ensures RunOf(f, q, turns).nSent >= RunOf(f, q, turns[..k]).nSent
  {
    if k == |turns| {
      assert turns[..k] == turns;
    } else {
      var before, t := turns[..|turns| - 1], turns[|turns| - 1];
      var r := RunOf(f, q, before);
      TurnGrows(q, r, t);
      assert before[..k] == turns[..k];
      LateReceives(f, q, before, k);
      if !r.stopped {
        RunKeeps(f, q, before);
        ManyReceives(f, q, before);
        NoMoreReceives(q, r, t);
      }
    }
  }

  /** The sends between: once send 2^32 - qdepth is posted, at turn k say, every later send up to
      number 2^32 finds a receive if and only if its number is within the receives posted by turn
      k, which are at least 2^32 - qdepth and fewer than 2^32. */
  lemma {:induction false} LastSendsStarveIff(f: FlowState, q: nat, turns: seq<Turn>, k: nat, t: Turn)
    requires GoodConfig(f) && 1 <= q <= 64 && k <= |turns| && !RunOf(f, q, turns).stopped
    requires RunOf(f, q, turns[..k]).nSent + q >= U32
    requires RunOf(f, q, turns).nSent < SendPhase(q, RunOf(f, q, turns), t).nSent <= U32
    ensures var posted := RunOf(f, q, turns[..k]).nRecv; var r := SendPhase(q, RunOf(f, q, turns), t);
      && U32 - q <= posted < U32
      && (r.nSent <= r.nRecv <==> r.nSent <= posted)
  {
    var r := RunOf(f, q, turns);
    ManyReceives(f, q, turns[..k]);
    LateReceives(f, q, turns, k);
    SendPostsNoReceive(q, r, t);
    RunKeeps(f, q, turns);
  }

  const SEND_AND_POLL: Turn := Turn(false, 0, Success, false)

  function Rounds(n: nat): seq<Turn> { seq(n, _ => SEND_AND_POLL) }

  lemma {:induction false} OneRound(r: Run)
    requires |r.ring| == TS_RING_SIZE && !r.stopped && r.outstanding == 0
    requires r.flow == FlowState(2, 2, 2, 1, true, false) && r.sent < U32 - 1
    ensures var r' := TakeTurn(1, r, SEND_AND_POLL);
      && !r'.stopped && r'.outstanding == 0 && r'.flow == r.flow && r'.nSent == r.nSent + 1 && r'.sent == r.sent + 1
      && (r.recvPosted < (r.sent + 2) % U32 ==> r'.recvPosted == (r.recvPosted + 1) % U32 && r'.nRecv == r.nRecv + 1)
      && (r.recvPosted >= (r.sent + 2) % U32 ==> r'.recvPosted == r.recvPosted && r'.nRecv == r.nRecv)
  {
    var r1 := SendPhase(1, r, SEND_AND_POLL);
    assert r1 == Posted(Asked(r), 0);
    assert TakeTurn(1, r, SEND_AND_POLL) == Replenish(1, SEND_AND_POLL, Completed(r1));
  }

  lemma {:induction false} OneMoreRound(f: FlowState, q: nat, n: nat)
    ensures RunOf(f, q, Rounds(n + 1)) == TakeTurn(q, RunOf(f, q, Rounds(n)), SEND_AND_POLL)
    ensures RunOf(f, q, Rounds(0)) == Begin(f, q)
  {
    var turns := Rounds(n + 1);
    assert turns[..|turns| - 1] == Rounds(n) && turns[|turns| - 1] == SEND_AND_POLL;
  }

  /** Quiet rounds at an accepted configuration and queue depth 1: each sends one message and
      polls its completion. */
  ghost predicate Steady(f: FlowState, r: Run, n: nat) {
    && !r.stopped && r.flow == f && r.outstanding == 0 && r.nSent == r.sent == n
    && r.nRecv == r.recvPosted == if n + 1 < U32 then AtLeastTwo(n + 1) else U32 - 1
  }

  function AtLeastTwo(n: nat): nat { if n < 2 then 2 else n }

  lemma {:induction false} SteadyStep(f: FlowState, r: Run, n: nat)
    requires f == FlowState(2, 2, 2, 1, true, false) && n + 1 < U32 && |r.ring| == TS_RING_SIZE && Steady(f, r, n)
    ensures Steady(f, TakeTurn(1, r, SEND_AND_POLL), n + 1)
  {
    OneRound(r);
  }

  lemma {:induction false} SteadyRun(f: FlowState, q: nat, n: nat)
    requires f == FlowState(2, 2, 2, 1, true, false) && q == 1 && n < U32
    ensures Steady(f, RunOf(f, q, Rounds(n)), n)
  {
    if n == 0 {
      OneMoreRound(f, q, 0);
    } else {
      SteadyRun(f, q, n - 1);
      OneMoreRound(f, q, n - 1);
      SteadyStep(f, RunOf(f, q, Rounds(n - 1)), n - 1);
    }
  }

  /** The run that starves: 2^32 - 1 quiet rounds, then one more send. */
  lemma {:induction false} StarvedRun(f: FlowState, q: nat, n: nat)
    requires f == FlowState(2, 2, 2, 1, true, false) && q == 1 && n == U32 - 1
    ensures Accepts(Params(f.maxCredits, f.high, f.low)) && GoodConfig(f)
    ensures var r := RunOf(f, q, Rounds(n));
      !r.stopped && SendPhase(q, r, SEND_AND_POLL).nSent == U32 > SendPhase(q, r, SEND_AND_POLL).nRecv
  {
    SteadyRun(f, q, n);
  }

  // ---------------------------------------------------------------- hysteresis

  predicate IsMark(m: Mark) { m.HighMark? || m.LowMark? }

  /** No watermark event strictly between i and j. */
  predicate QuietBetween(t: seq<Mark>, i: int, j: nat) {
    forall k :: i < k < j && 0 <= k < |t| ==> !IsMark(t[k])
  }

  lemma {:induction false} LastPrefix(t: seq<Mark>, j: nat)
    requires 0 < j <= |t|
    ensures t[..j][..j - 1] == t[..j - 1] && t[..j] != [] && t[..j][|t[..j]| - 1] == t[j - 1]
  {
  }

  lemma {:induction false} PausedSince(t: seq<Mark>, i: int, j: nat)
    requires -1 <= i < j <= |t| && QuietBetween(t, i, j) && (i >= 0 ==> IsMark(t[i]))
    ensures PausedAfter(t[..j]) <==> i >= 0 && t[i].HighMark?
    decreases j
  {
    if j > 0 {
      LastPrefix(t, j);
      if i < j - 1 {
        assert !IsMark(t[j - 1]);
        PausedSince(t, i, j - 1);
      }
    }
  }

  lemma {:induction false} CountsGrow(t: seq<Mark>, i: nat, j: nat)
    requires i <= j <= |t|
    ensures Sends(t[..i]) <= Sends(t[..j]) && Dones(t[..i]) <= Dones(t[..j])
    ensures (forall k :: i <= k < j ==> !t[k].Sent?) ==> Sends(t[..i]) == Sends(t[..j])
    decreases j
  {
    if i < j {
      LastPrefix(t, j);
      CountsGrow(t, i, j - 1);
    }
  }

  /** Watermark events alternate, and the first of a run is a pause. */
  lemma {:induction false} MarksAlternate(f: FlowState, q: nat, t: seq<Mark>, i: int, j: nat)
    requires Paced(f, q, t) && -1 <= i < j < |t| && IsMark(t[j]) && QuietBetween(t, i, j)
    requires i >= 0 ==> IsMark(t[i])
    ensures t[j].HighMark? <==> i < 0 || t[i].LowMark?
  {
    PausedSince(t, i, j);
    assert Follows(f, q, t[..j], t[j]);
  }

  /** Between a pause and the resume that ends it nothing is sent, and at least high - low
      completions arrive. */
  lemma {:induction false} PauseLasts(f: FlowState, q: nat, t: seq<Mark>, i: nat, j: nat)
    requires Paced(f, q, t) && i < j < |t| && t[i].HighMark? && t[j].LowMark? && QuietBetween(t, i, j)
    ensures Sends(t[..j]) == Sends(t[..i])
    ensures Dones(t[..j]) - Dones(t[..i]) >= f.high - f.low
  {
    assert Follows(f, q, t[..i], t[i]) && Follows(f, q, t[..j], t[j]);
    forall k | i <= k < j ensures !t[k].Sent? {
      if k > i {
        PausedSince(t, i, k);
        assert Follows(f, q, t[..k], t[k]);
      }
    }
    CountsGrow(t, i, j);
  }

  /** Between a resume and the next pause at least high - low sends are posted. */
  lemma {:induction false} ResumeLasts(f: FlowState, q: nat, t: seq<Mark>, i: nat, j: nat)
    requires Paced(f, q, t) && i < j < |t| && t[i].LowMark? && t[j].HighMark?
    ensures Sends(t[..j]) - Sends(t[..i]) >= f.high - f.low
  {
    assert Follows(f, q, t[..i], t[i]) && Follows(f, q, t[..j], t[j]);
    CountsGrow(t, i, j);
  }

  /** With a queue depth below the high watermark the sender never pauses. */
  lemma {:induction false} ShallowNeverPauses(f: FlowState, q: nat, turns: seq<Turn>, i: nat)
    requires GoodConfig(f) && 1 <= q <= 64 && q < f.high && i < |RunOf(f, q, turns).trace|
    ensures !IsMark(RunOf(f, q, turns).trace[i])
  {
    RunKeeps(f, q, turns);
    FirstMark(f, q, RunOf(f, q, turns).trace, i);
  }

  lemma {:induction false} FirstMark(f: FlowState, q: nat, t: seq<Mark>, i: nat)
    requires Paced(f, q, t) && q < f.high && i < |t|
    ensures !IsMark(t[i])
  {
    forall k | -1 < k < i && 0 <= k < |t| ensures !IsMark(t[k]) {
      FirstMark(f, q, t, k);
    }
    PausedSinceStart(t, i);
    assert Follows(f, q, t[..i], t[i]);
  }

  lemma {:induction false} PausedSinceStart(t: seq<Mark>, i: nat)
    requires i <= |t| && QuietBetween(t, -1, i)
    ensures !PausedAfter(t[..i])
  {
    PausedSince(t, -1, i);
  }

  /** The three hysteresis laws hold of the events of every run. */
  lemma {:induction false} RunsArePaced(f: FlowState, q: nat, turns: seq<Turn>)
    requires GoodConfig(f) && 1 <= q <= 64
    ensures Paced(f, q, RunOf(f, q, turns).trace)
  {
    RunKeeps(f, q, turns);
  }

  // -------------------------------------------------- runs configured by default

  /** Where the watermark events of a run come when the flow was configured for queue depth d. */
  lemma {:induction false} DefaultMarks(d: nat, q: nat, turns: seq<Turn>, i: nat)
    requires 1 <= d <= 64 && 1 <= q <= 64 && i < |RunOf(AutoConfigured(d), q, turns).trace|
    ensures var t := RunOf(AutoConfigured(d), q, turns).trace;
      && (t[i].HighMark? ==> Sends(t[..i]) - Dones(t[..i]) == 3 * d / 2)
      && (t[i].LowMark? ==> Sends(t[..i]) - Dones(t[..i]) <= d / 2)
  {
    AutoConfiguredInRange(d);
    AutoConfiguredIsGood(d);
    RunsArePaced(AutoConfigured(d), q, turns);
    var t := RunOf(AutoConfigured(d), q, turns).trace;
    assert Follows(AutoConfigured(d), q, t[..i], t[i]);
  }

  /** Its pauses last for at least d completions, and d sends lie between a resume and the next
      pause. */
  lemma {:induction false} DefaultDistances(d: nat, q: nat, turns: seq<Turn>, i: nat, j: nat)
    requires 1 <= d <= 64 && 1 <= q <= 64 && i < j < |RunOf(AutoConfigured(d), q, turns).trace|
    ensures var t := RunOf(AutoConfigured(d), q, turns).trace;
      && (t[i].HighMark? && t[j].LowMark? && QuietBetween(t, i, j) ==>
            Sends(t[..j]) == Sends(t[..i]) && Dones(t[..j]) - Dones(t[..i]) >= d)
      && (t[i].LowMark? && t[j].HighMark? ==> Sends(t[..j]) - Sends(t[..i]) >= d)
  {
    var f := AutoConfigured(d);
    var t := RunOf(f, q, turns).trace;
    AutoConfiguredInRange(d);
    AutoConfiguredIsGood(d);
    RunsArePaced(f, q, turns);
    if t[i].HighMark? && t[j].LowMark? && QuietBetween(t, i, j) {
      PauseLasts(f, q, t, i, j);
    }
    if t[i].LowMark? && t[j].HighMark? {
      ResumeLasts(f, q, t, i, j);
    }
  }

  const SEND_ONLY: Turn := Turn(false, 0, Nothing, false)

  /** n turns in which nothing completes. */
  function Silence(n: nat): seq<Turn> { seq(n, _ => SEND_ONLY) }

  /** At the depth it was configured for, a run can pause if and only if the depth is 1: from 2 on
      the high watermark is above the depth. */
  lemma {:induction false} DefaultPausesIff(d: nat)
    requires 1 <= d <= 64
    ensures d >= 2 ==> forall turns, i :: 0 <= i < |RunOf(AutoConfigured(d), d, turns).trace| ==>
      !IsMark(RunOf(AutoConfigured(d), d, turns).trace[i])
    ensures d == 1 ==> RunOf(AutoConfigured(d), d, Silence(2)).trace == [Sent, HighMark]
  {
    AutoConfiguredInRange(d);
    AutoConfiguredIsGood(d);
    if d >= 2 {
      forall turns, i | 0 <= i < |RunOf(AutoConfigured(d), d, turns).trace|
        ensures !IsMark(RunOf(AutoConfigured(d), d, turns).trace[i])
      {
        ShallowNeverPauses(AutoConfigured(d), d, turns, i);
      }
    } else {
      SilentTurn(AutoConfigured(d), d, 0);
      SilentTurn(AutoConfigured(d), d, 1);
    }
  }

  lemma {:induction false} SilentTurn(f: FlowState, q: nat, n: nat)
    ensures RunOf(f, q, Silence(n + 1)) == TakeTurn(q, RunOf(f, q, Silence(n)), SEND_ONLY)
    ensures RunOf(f, q, Silence(0)) == Begin(f, q)
  {
    var turns := Silence(n + 1);
    assert turns[..|turns| - 1] == Silence(n) && turns[|turns| - 1] == SEND_ONLY;
  }

  predicate Filled(f: FlowState, q: nat, r: Run, n: nat) {
    && !r.stopped && r.nDone == 0 && r.nSent == r.outstanding == Least(n, Least(q, f.high))
    && (r.flow.paused <==> q >= f.high && n > f.high)
  }

  lemma {:induction false} FilledStep(f: FlowState, q: nat, r: Run, n: nat)
    requires GoodConfig(f) && q >= 1 && |r.ring| == TS_RING_SIZE && Credits(f, q, r) && Filled(f, q, r, n)
    ensures Filled(f, q, TakeTurn(q, r, SEND_ONLY), n + 1)
  {
    var r1 := SendPhase(q, r, SEND_ONLY);
    assert TakeTurn(q, r, SEND_ONLY) == r1;
    assert InFlight(r.flow) == r.outstanding;
  }

  /** While nothing completes the sender fills the window: the queue depth or the high watermark,
      whichever is less, and no more. */
  lemma {:induction false} FillsWindow(f: FlowState, q: nat, n: nat)
    requires GoodConfig(f) && 1 <= q <= 64
    ensures var r := RunOf(f, q, Silence(n));
      && !r.stopped && r.nDone == 0 && r.nSent == r.outstanding == Least(n, Least(q, f.high))
      && (r.flow.paused <==> q >= f.high && n > f.high)
  {
    if n == 0 {
      SilentTurn(f, q, 0);
    } else {
      SilentTurn(f, q, n - 1);
      FillsWindow(f, q, n - 1);
      RunKeeps(f, q, Silence(n - 1));
      FilledStep(f, q, RunOf(f, q, Silence(n - 1)), n - 1);
    }
  }

  /** Until the first completion exactly the pre-post has been posted: twice the depth, but no more
      than there are credits. */
  lemma {:induction false} PostedUpFront(f: FlowState, q: nat, turns: seq<Turn>)
    ensures RunOf(f, q, turns).nDone == 0 ==> RunOf(f, q, turns).nRecv == Least(2 * q, f.maxCredits)
  {
    if turns != [] {
      PostedUpFront(f, q, turns[..|turns| - 1]);
      PostsForCompletions(q, RunOf(f, q, turns[..|turns| - 1]), turns[|turns| - 1]);
    }
  }

  lemma {:induction false} PostsForCompletions(q: nat, r: Run, t: Turn)
    requires |r.ring| == TS_RING_SIZE
    ensures r.nDone <= TakeTurn(q, r, t).nDone
    ensures TakeTurn(q, r, t).nDone == r.nDone ==> TakeTurn(q, r, t).nRecv == r.nRecv
  {
  }

  predicate NothingFails(turns: seq<Turn>) {
    forall i :: 0 <= i < |turns| ==> !turns[i].sendFails && !turns[i].recvFails && !turns[i].poll.Failure?
  }

  /** A failed poll ends every run that gets there, and the first send is always tried; a run in which
      nothing fails goes on. */
  lemma {:induction false} FailuresStop(f: FlowState, q: nat, turns: seq<Turn>)
    requires GoodConfig(f) && 1 <= q <= 64
    ensures (exists i :: 0 <= i < |turns| && turns[i].poll.Failure?) ==> RunOf(f, q, turns).stopped
    ensures turns != [] && turns[0].sendFails ==> RunOf(f, q, turns).stopped
    ensures NothingFails(turns) ==> !RunOf(f, q, turns).stopped
  {
    if turns != [] {
      FailuresStop(f, q, turns[..|turns| - 1]);
      StopsHere(q, RunOf(f, q, turns[..|turns| - 1]), turns[|turns| - 1]);
    }
  }

  lemma {:induction false} StopsHere(q: nat, r: Run, t: Turn)
    requires |r.ring| == TS_RING_SIZE
    ensures r.stopped || t.poll.Failure? ==> TakeTurn(q, r, t).stopped
    ensures !r.stopped && !t.sendFails && !t.recvFails && !t.poll.Failure? ==> !TakeTurn(q, r, t).stopped
  {
  }

  /** A send that fails ends the run, wherever it would have been posted, and nowhere else. */
  lemma {:induction false} FailedSendStops(q: nat, r: Run, t: Turn)
    requires |r.ring| == TS_RING_SIZE && !r.stopped && t.sendFails
    ensures SendPhase(q, r, t).nSent == r.nSent
    ensures SendPhase(q, r, t).stopped <==> SendPhase(q, r, t.(sendFails := false)).nSent == r.nSent + 1
  {
  }

  // ------------------------------------------------------------ the loop itself

  lemma {:induction false} StoppedStays(f: FlowState, q: nat, turns: seq<Turn>, i: nat)
    requires i <= |turns| && RunOf(f, q, turns[..i]).stopped
    ensures RunOf(f, q, turns) == RunOf(f, q, turns[..i])
    decreases |turns| - i
  {
    if i < |turns| {
      assert turns[..i + 1][..i] == turns[..i];
      StoppedStays(f, q, turns, i + 1);
    } else {
      assert turns[..i] == turns;
    }
  }

  datatype Status = Ok | Enodev | Einval | Enoent | Eio

  /** The main loop.  The deadline cuts it after some number of turns; turns says what each
      of them meets.  false is -EIO (or the error of a failed post). */
  method MainLoop(flow: Flow, queueDepth: nat, turns: seq<Turn>)
    returns (ok: bool, sent: nat, recvPosted: nat, outstanding: nat)
    requires GoodConfig(flow.State()) && 1 <= queueDepth <= 64
    modifies flow
    ensures var r := RunOf(old(flow.State()), queueDepth, turns);
      && flow.State() == r.flow && (ok <==> !r.stopped)
      && sent == r.sent && recvPosted == r.recvPosted && outstanding == r.outstanding
  {
    ghost var f := flow.State();
    var sendTs := new nat[TS_RING_SIZE](_ => 0);
    var tsHead, tsTail := 0, 0;
    flow.credits, flow.paused := flow.maxCredits, false;
    sent, outstanding, ok := 0, 0, true;
    recvPosted := queueDepth * 2;
    if recvPosted > flow.maxCredits {
      recvPosted := flow.maxCredits;
    }
    var i := 0;
    ghost var r := Begin(f, queueDepth);
    assert turns[..0] == [];
    while i < |turns| && ok
      invariant 0 <= i <= |turns| && |r.ring| == TS_RING_SIZE
      invariant r == RunOf(f, queueDepth, turns[..i])
      invariant flow.State() == r.flow && sendTs[..] == r.ring
      invariant sent == r.sent && recvPosted == r.recvPosted && outstanding == r.outstanding
      invariant tsHead == r.tsHead && tsTail == r.tsTail
      invariant ok <==> !r.stopped
    {
      ok, sent, recvPosted, outstanding, tsHead, tsTail :=
        OneTurn(flow, queueDepth, turns[i], r, sendTs, sent, recvPosted, outstanding, tsHead, tsTail);
      r := TakeTurn(queueDepth, r, turns[i]);
      NextTurn(f, queueDepth, turns, i);
      i := i + 1;
    }
    StoppedOrDone(f, queueDepth, turns, i);
  }

  lemma {:induction false} NextTurn(f: FlowState, q: nat, turns: seq<Turn>, i: nat)
    requires i < |turns|
    ensures RunOf(f, q, turns[..i + 1]) == TakeTurn(q, RunOf(f, q, turns[..i]), turns[i])
  {
    assert turns[..i + 1][..i] == turns[..i];
  }

  lemma {:induction false} StoppedOrDone(f: FlowState, q: nat, turns: seq<Turn>, i: nat)
    requires i <= |turns| && (i == |turns| || RunOf(f, q, turns[..i]).stopped)
    ensures RunOf(f, q, turns) == RunOf(f, q, turns[..i])
  {
    if i < |turns| {
      StoppedStays(f, q, turns, i);
    } else {
      assert turns[..i] == turns;
    }
  }

  /** One turn of the main loop on its variables. */
  method OneTurn(flow: Flow, q: nat, t: Turn, ghost r: Run, sendTs: array<nat>,
                 sent: nat, recvPosted: nat, outstanding: nat, tsHead: nat, tsTail: nat)
    returns (ok: bool, sent': nat, recvPosted': nat, outstanding': nat, tsHead': nat, tsTail': nat)
    requires |r.ring| == TS_RING_SIZE && !r.stopped
    requires flow.State() == r.flow && sendTs[..] == r.ring
    requires sent == r.sent && recvPosted == r.recvPosted && outstanding == r.outstanding
    requires tsHead == r.tsHead && tsTail == r.tsTail
    modifies flow, sendTs
    ensures var r' := TakeTurn(q, r, t);
      && flow.State() == r'.flow && sendTs[..] == r'.ring && (ok <==> !r'.stopped)
      && sent' == r'.sent && recvPosted' == r'.recvPosted && outstanding' == r'.outstanding
      && tsHead' == r'.tsHead && tsTail' == r'.tsTail
  {
    ok, sent', outstanding', tsHead' := SendOne(flow, q, t, r, sendTs, sent, outstanding, tsHead);
    recvPosted', tsTail' := recvPosted, tsTail;
    if ok {
      ok, recvPosted', outstanding', tsTail' :=
        PollOne(flow, q, t, SendPhase(q, r, t), sent', recvPosted, outstanding', tsTail);
    }
  }

  /** The send phase of one turn on the variables of the loop. */
  method SendOne(flow: Flow, q: nat, t: Turn, ghost r: Run, sendTs: array<nat>, sent: nat, outstanding: nat,
                 tsHead: nat)
    returns (ok: bool, sent': nat, outstanding': nat, tsHead': nat)
    requires |r.ring| == TS_RING_SIZE && !r.stopped
    requires flow.State() == r.flow && sendTs[..] == r.ring
    requires sent == r.sent && outstanding == r.outstanding && tsHead == r.tsHead
    modifies flow, sendTs
    ensures var r1 := SendPhase(q, r, t);
      && flow.State() == r1.flow && sendTs[..] == r1.ring
      && sent' == r1.sent && outstanding' == r1.outstanding && tsHead' == r1.tsHead
      && r.recvPosted == r1.recvPosted && r.tsTail == r1.tsTail && (ok <==> !r1.stopped)
  {
    ok, sent', outstanding', tsHead' := true, sent, outstanding, tsHead;
    var canSend := flow.TrySend();
    if canSend && outstanding < q {
      if t.sendFails {
        ok := false;
      } else {
        flow.OnSend();
        sendTs[tsHead % TS_RING_SIZE] := t.now;
        tsHead' := (tsHead + 1) % U32;
        sent' := (sent + 1) % U32;
        outstanding' := outstanding + 1;
      }
    }
  }

  /** The poll phase of one turn. */
  method PollOne(flow: Flow, q: nat, t: Turn, ghost r: Run, sent: nat, recvPosted: nat, outstanding: nat, tsTail: nat)
    returns (ok: bool, recvPosted': nat, outstanding': nat, tsTail': nat)
    requires |r.ring| == TS_RING_SIZE && !r.stopped && flow.State() == r.flow
    requires sent == r.sent && recvPosted == r.recvPosted && outstanding == r.outstanding && tsTail == r.tsTail
    modifies flow
    ensures var r2 := PollPhase(q, r, t);
      && flow.State() == r2.flow && r.ring == r2.ring && r.sent == r2.sent && r.tsHead == r2.tsHead
      && recvPosted' == r2.recvPosted && outstanding' == r2.outstanding && tsTail' == r2.tsTail
      && (ok <==> !r2.stopped)
  {
    ok, recvPosted', outstanding', tsTail' := true, recvPosted, outstanding, tsTail;
    match t.poll {
      case Nothing =>
      case Failure => ok := false;
      case Success =>
        if outstanding > 0 {
          tsTail' := (tsTail + 1) % U32;
          outstanding' := outstanding - 1;
          flow.OnCompletion();
          if recvPosted < (sent + q) % U32 {
            if t.recvFails {
              ok := false;
            } else {
              recvPosted' := (recvPosted + 1) % U32;
            }
          }
        }
    }
  }

  predicate InRange(durationSecs: nat, msgSize: nat, queueDepth: nat) {
    1 <= durationSecs <= 600 && msgSize >= 1 && 1 <= queueDepth <= 64
  }

  /** dmaplane_sustained_stream up to the end of its main loop; found says that the memory region
      and the buffer behind it exist. */
  method SustainedStream(flow: Flow, initialized: bool, durationSecs: nat, msgSize: nat, queueDepth: nat,
                         found: bool, bufSize: nat, turns: seq<Turn>)
    returns (status: Status)
    requires flow.configured ==> GoodConfig(flow.State())
    modifies flow
    ensures status.Enodev? <==> !initialized
    ensures status.Enoent? <==> (initialized && InRange(durationSecs, msgSize, queueDepth) && !found)
    ensures status.Einval? <==>
      (initialized && (!InRange(durationSecs, msgSize, queueDepth) || (found && msgSize > bufSize)))
    ensures status.Enodev? || status.Einval? || status.Enoent? ==> flow.State() == old(flow.State())
    ensures status.Ok? || status.Eio? <==>
      initialized && 1 <= durationSecs <= 600 && 1 <= queueDepth <= 64 && found && 1 <= msgSize <= bufSize
    ensures (exists i :: 0 <= i < |turns| && turns[i].poll.Failure?) ==> !status.Ok?
    ensures turns != [] && turns[0].sendFails ==> !status.Ok?
    ensures NothingFails(turns) ==> !status.Eio?
    ensures (status.Ok? || status.Eio?) && !old(flow.configured) ==>
      flow.maxCredits == 2 * queueDepth && flow.high == 3 * queueDepth / 2 && flow.low == queueDepth / 2
    ensures status.Ok? || status.Eio? ==>
      var f := if old(flow.configured) then old(flow.State()) else AutoConfigured(queueDepth);
      && GoodConfig(f) && 1 <= queueDepth <= 64
      && flow.State() == RunOf(f, queueDepth, turns).flow && (status.Eio? <==> RunOf(f, queueDepth, turns).stopped)
  {
    if !initialized {
      return Enodev;
    }
    if durationSecs == 0 || durationSecs > 600 {
      return Einval;
    }
    if msgSize == 0 {
      return Einval;
    }
    if queueDepth == 0 || queueDepth > 64 {
      return Einval;
    }
    if !found {
      return Enoent;
    }
    if msgSize > bufSize {
      return Einval;
    }
    if !flow.configured {
      flow.AutoConfigure(queueDepth);
    }
    AutoConfiguredInRange(queueDepth);
    RunKeeps(flow.State(), queueDepth, turns);
    FailuresStop(flow.State(), queueDepth, turns);
    var ok, _, _, _ := MainLoop(flow, queueDepth, turns);
    status := if ok then Ok else Eio;
  }
}
