/** Progress of the KVCache transfer: no reachable state is stuck before both servers have
    stopped, every run is finite, and a finished run has delivered every prompt's cache. */
module KvProgress {
  import opened Arithmetic
  import opened Wrappers
  import opened Wire
  import opened KvPacking
  import opened KvTransfer
  import opened KvInvariant
  import opened KvSession

  predicate Finished(s: State) { s.p.pc.PStopped? && s.d.pc.DStopped? }

  /** An action that can be taken now, if the session is not over. */
  function NextAction(s: State): Action {
    if |s.wire| > 0 then Deliver
    else match s.d.pc
      case DPrePost => DPostInitial
      case DReady => DSendReady
      case DSendPrompt => DPrompt
      case DRepost => DRepostChunk
      case DCredit => DSendCredit
      case DDone => DSendDone
      case DRepostSentinel => DRepostLast
      case DCopy => DCopyOut
      case DPoll => if |s.cq| > 0 then DPollOne else PrefillAction(s)
      case _ => if |s.p2d| > 0 then DRead(1) else PrefillAction(s)
  }

  function PrefillAction(s: State): Action {
    match s.p.pc
    case PDrain => PDrainCredits(0)
    case PWrite => PWriteChunk
    case PTop =>
      if s.p.i >= s.p.numChunks then PWriteSentinel
      else if s.p.credits <= 0 then PBlock
      else PDrainCredits(0)
    case _ => PRead(1)
  }

  lemma {:induction false} DeliverEnabled(c: Config, g: Jobs, s: State)
    requires Inv(c, g, s) && |s.wire| > 0
    ensures StepDeliver(s).Some?
  {
    ReceivesCover(c, g, s);
    OldestWriteInBounds(c, g, s);
  }

  lemma {:induction false} OldestWriteInBounds(c: Config, g: Jobs, s: State)
    requires Inv(c, g, s) && |s.wire| > 0
    ensures 0 <= s.wire[0].len && s.wire[0].offset + s.wire[0].len <= c.bufSize == |s.mem| == |s.p.host|
  {
    var k := s.p.served;
    var m := Polled(g, s) + |s.cq|;
    assert s.wire[0] == At(g, k).writes[m + 0];
    WriteInBounds(c, g, k, m);
  }

  lemma {:induction false} WriteInBounds(c: Config, g: Jobs, k: nat, m: nat)
    requires Plan(c, g) && k < |g| && m <= Chunks(g[k])
    ensures m < |g[k].writes|
    ensures 0 <= g[k].writes[m].len && g[k].writes[m].offset + g[k].writes[m].len <= c.bufSize
  {
    assert JobFits(c, g[k]);
    if m < Chunks(g[k]) {
      assert Covers(g[k], m);
    }
  }

  lemma {:induction false} DecodeEnabled(c: Config, g: Jobs, s: State)
    requires Inv(c, g, s) && !s.d.pc.DStopped?
    requires s.d.pc.DPoll? ==> |s.cq| > 0
    requires s.d.pc.DManifestHeader? || s.d.pc.DManifestBody? ==> |s.p2d| > 0
    requires |s.wire| == 0 && c.window + 1 <= c.recvDepth
    requires s.d.pc.DCopy? ==> StepDCopyOut(s).Some?
    ensures Step(c, s, NextAction(s)).Some?
  {
    PromptFits(c, g, s.d.k);
    DecodeActs(c, g, s);
  }

  lemma {:induction false} PromptFits(c: Config, g: Jobs, k: nat)
    requires Plan(c, g)
    ensures k < |c.prompts| ==> |c.prompts[k]| < U32
  {
    if k < |c.prompts| {
      assert JobFits(c, g[k]);
    }
  }

  lemma {:induction false} DecodeActs(c: Config, g: Jobs, s: State)
    requires c.chunkSize > 0 && DecodeVars(c, g, s.d) && Receives(c, s) && !s.d.pc.DStopped?
    requires s.d.k < |c.prompts| ==> |c.prompts[s.d.k]| < U32
    requires s.d.pc.DPoll? ==> |s.cq| > 0
    requires s.d.pc.DManifestHeader? || s.d.pc.DManifestBody? ==> |s.p2d| > 0
    requires |s.wire| == 0 && c.window + 1 <= c.recvDepth
    requires s.d.pc.DCopy? ==> StepDCopyOut(s).Some?
    ensures Step(c, s, NextAction(s)).Some?
  {
  }

  lemma {:induction false} CopyOutEnabled(c: Config, s: State)
    requires ValidConfig(c) && Serves(c) && Inv(c, JobsOf(c), s) && s.d.pc.DCopy?
    ensures StepDCopyOut(s).Some?
  {
    BufferHolds(c, s);
    assert CanRebuild(c, c.prompts[s.d.k]);
  }

  /** When decode waits for prefill and the fabric is idle, prefill can move. */
  lemma {:induction false} PrefillEnabled(c: Config, g: Jobs, s: State)
    requires Inv(c, g, s) && |s.wire| == 0 && !Finished(s)
    requires DecodeWaits(s)
    ensures InLoop(s.p.pc) || (Reading(s.p) && |s.d2p| > 0)
    ensures s.p.pc.PTop? && s.p.i < s.p.numChunks && s.p.credits <= 0 ==> |s.d2p| > 0
  {
    assert s.p.acc + [] == s.p.acc;
  }

  lemma {:induction false} PrefillReadEnabled(c: Config, s: State, n: nat)
    requires ValidConfig(c) && Inv(c, JobsOf(c), s) && Reading(s.p)
    requires 1 <= n <= |s.d2p| && |s.p.acc| + n <= s.p.want
    ensures StepPRead(c, s, n).Some?
  {
    var g := JobsOf(c);
    if |s.p.acc| + n == s.p.want {
      if s.p.pc.PHeader? {
        HeaderReadIsLength(c, g, s, n);
      } else if s.p.pc.PPrompt? {
        PromptReadIsPrompt(c, g, s, n);
        JobGood(c, c.prompts[s.p.served]);
      }
    }
  }

  /** TCP may deliver in any pieces: a blocking read of either side may get any part of what is in
      transit, up to what it still asks for, and a credit drain any part up to 64 bytes. */
  lemma {:induction false} AnyPiece(c: Config, s: State, n: nat)
    requires ValidConfig(c) && Reachable(c, s)
    ensures Reading(s.p) && 1 <= n <= |s.d2p| && |s.p.acc| + n <= s.p.want ==> Step(c, s, PRead(n)).Some?
    ensures (s.d.pc.DManifestHeader? || s.d.pc.DManifestBody?) && 1 <= n <= |s.p2d| && |s.d.acc| + n <= s.d.want ==>
      Step(c, s, DRead(n)).Some?
    ensures s.p.pc.PTop? && s.p.i < s.p.numChunks && s.p.credits > 0 && n <= 64 && n <= |s.d2p| ==>
      Step(c, s, PDrainCredits(n)).Some?
    ensures Step(c, s, PBlock).Some? && n <= 64 && n < |s.d2p| ==>
      Step(c, Step(c, s, PBlock).value, PDrainCredits(n)).Some?
  {
    ReachableInv(c, s);
    AnyPrefillPiece(c, s, n);
    AnyDecodePiece(c, JobsOf(c), s, n);
    AnyCreditPiece(c, s, n);
  }

  lemma {:induction false} AnyPrefillPiece(c: Config, s: State, n: nat)
    requires ValidConfig(c) && Inv(c, JobsOf(c), s)
    ensures Reading(s.p) && 1 <= n <= |s.d2p| && |s.p.acc| + n <= s.p.want ==> Step(c, s, PRead(n)).Some?
  {
    if Reading(s.p) && 1 <= n <= |s.d2p| && |s.p.acc| + n <= s.p.want {
      PrefillReadEnabled(c, s, n);
    }
  }

  lemma {:induction false} AnyDecodePiece(c: Config, g: Jobs, s: State, n: nat)
    requires c.chunkSize > 0 && DecodeVars(c, g, s.d)
    ensures (s.d.pc.DManifestHeader? || s.d.pc.DManifestBody?) && 1 <= n <= |s.p2d| && |s.d.acc| + n <= s.d.want ==>
      Step(c, s, DRead(n)).Some?
  {
  }

  lemma {:induction false} AnyCreditPiece(c: Config, s: State, n: nat)
    requires c.chunkSize > 0
    ensures s.p.pc.PTop? && s.p.i < s.p.numChunks && s.p.credits > 0 && n <= 64 && n <= |s.d2p| ==>
      Step(c, s, PDrainCredits(n)).Some?
    ensures Step(c, s, PBlock).Some? && n <= 64 && n < |s.d2p| ==>
      Step(c, Step(c, s, PBlock).value, PDrainCredits(n)).Some?
  {
  }

  /** No deadlock: if the configuration serves its prompts, every reachable state before the end
      has an action; and a posted write can always be delivered, so a sender that waits for its own
      completion is not stuck either. */
  lemma {:induction false} NeverStuck(c: Config, s: State)
    requires ValidConfig(c) && Reachable(c, s)
    ensures Serves(c) && !Finished(s) ==> Step(c, s, NextAction(s)).Some?
    ensures |s.wire| > 0 ==> Step(c, s, Deliver).Some?
  {
    ReachableInv(c, s);
    if Serves(c) && !Finished(s) {
      CanMove(c, s);
    }
    if |s.wire| > 0 {
      DeliverEnabled(c, JobsOf(c), s);
    }
  }

  /** Decode is waiting for prefill. */
  predicate DecodeWaits(s: State) {
    || (s.d.pc.DPoll? && |s.cq| == 0)
    || ((s.d.pc.DManifestHeader? || s.d.pc.DManifestBody? || s.d.pc.DStopped?) && |s.p2d| == 0)
  }

  lemma {:induction false} CanMove(c: Config, s: State)
    requires ValidConfig(c) && Serves(c) && Inv(c, JobsOf(c), s) && !Finished(s)
    ensures Step(c, s, NextAction(s)).Some?
  {
    var g := JobsOf(c);
    if |s.wire| > 0 {
      DeliverEnabled(c, g, s);
    } else if DecodeWaits(s) {
      PrefillMoves(c, s);
      WaitingPassesTurn(s);
    } else {
      if s.d.pc.DStopped? {
        StoppedReadsNothing(c, g, s);
      }
      if s.d.pc.DCopy? {
        CopyOutEnabled(c, s);
      }
      DecodeEnabled(c, g, s);
    }
  }

  lemma {:induction false} WaitingPassesTurn(s: State)
    requires |s.wire| == 0 && DecodeWaits(s)
    ensures NextAction(s) == PrefillAction(s)
  {
  }

  lemma {:induction false} PrefillMoves(c: Config, s: State)
    requires ValidConfig(c) && Inv(c, JobsOf(c), s) && !Finished(s) && |s.wire| == 0 && DecodeWaits(s)
    ensures Step(c, s, PrefillAction(s)).Some?
  {
    PrefillEnabled(c, JobsOf(c), s);
    if Reading(s.p) {
      PrefillReadEnabled(c, s, 1);
    }
    ActionEnabled(c, s);
  }

  lemma {:induction false} ActionEnabled(c: Config, s: State)
    requires c.chunkSize > 0 && (InLoop(s.p.pc) || Reading(s.p))
    requires Reading(s.p) ==> StepPRead(c, s, 1).Some?
    requires s.p.pc.PTop? && s.p.i < s.p.numChunks && s.p.credits <= 0 ==> |s.d2p| > 0
    ensures Step(c, s, PrefillAction(s)).Some?
  {
  }

  lemma {:induction false} StoppedReadsNothing(c: Config, g: Jobs, s: State)
    requires Inv(c, g, s) && s.d.pc.DStopped?
    ensures s.p2d == []
  {
  }

  // --------------------------------------------------------------- bounded runs

  /** Steps prefill can still take for one prompt, from its length header on. */
  function PrefillCost(j: Job): nat { 4 + |j.prompt| + LoopCost(j) }

  function LoopCost(j: Job): nat { 5 * Chunks(j) + 3 }

  function DecodeCost(j: Job): nat { 5 + |j.json| + ReceiveCost(j) }

  function ReceiveCost(j: Job): nat { 3 * Chunks(j) + 4 }

  function PrefillFrom(g: Jobs, k: nat): nat
    decreases |g| - k
  {
    if k < |g| then PrefillCost(g[k]) + PrefillFrom(g, k + 1) else 4
  }

  function DecodeFrom(g: Jobs, k: nat): nat
    decreases |g| - k
  {
    if k < |g| then DecodeCost(g[k]) + DecodeFrom(g, k + 1) else 1
  }

  function PrefillLeft(g: Jobs, p: Prefill): int {
    match p.pc
    case PReady => 1 + PrefillFrom(g, 0)
    case PHeader => PrefillFrom(g, p.served) - |p.acc|
    case PPrompt => p.want - |p.acc| + LoopCost(At(g, p.served)) + PrefillFrom(g, p.served + 1)
    case PStopped => 0
    case PFinal => p.want - |p.acc| + PrefillFrom(g, p.served + 1)
    case _ => 4 * (p.numChunks - p.i) - (if p.pc.PDrain? then 1 else if p.pc.PWrite? then 2 else 0)
              + 2 + (p.numChunks - p.creditsReceived + 1) + PrefillFrom(g, p.served + 1)
  }

  function DecodeLeft(c: Config, g: Jobs, d: Decode): int {
    match d.pc
    case DPrePost => c.window + 1 - d.turns + 1 + DecodeFrom(g, 0)
    case DReady => 1 + DecodeFrom(g, 0)
    case DSendPrompt => DecodeFrom(g, d.k)
    case DManifestHeader => 4 - |d.acc| + |At(g, d.k).json| + ReceiveCost(At(g, d.k)) + DecodeFrom(g, d.k + 1)
    case DManifestBody => d.want - |d.acc| + ReceiveCost(At(g, d.k)) + DecodeFrom(g, d.k + 1)
    case DPoll => 3 * (Chunks(At(g, d.k)) - d.chunksReceived) + 4 + DecodeFrom(g, d.k + 1)
    case DRepost => 3 * (Chunks(At(g, d.k)) - d.chunksReceived) + 6 + DecodeFrom(g, d.k + 1)
    case DCredit => 3 * (Chunks(At(g, d.k)) - d.chunksReceived) + 5 + DecodeFrom(g, d.k + 1)
    case DDone => 3 + DecodeFrom(g, d.k + 1)
    case DRepostSentinel => 2 + DecodeFrom(g, d.k + 1)
    case DCopy => 1 + DecodeFrom(g, d.k + 1)
    case DStopped => 0
  }

  /** Work left: what each server still has to do, and the writes not yet delivered. */
  function Measure(c: Config, g: Jobs, s: State): int {
    PrefillLeft(g, s.p) + DecodeLeft(c, g, s.d) + |s.wire|
  }

  lemma {:induction false} MeasureIsNat(c: Config, g: Jobs, s: State)
    requires Inv(c, g, s)
    ensures PrefillLeft(g, s.p) >= 0 && DecodeLeft(c, g, s.d) >= 0
  {
  }

  lemma {:induction false} DecodeReadDecreases(c: Config, g: Jobs, s: State, n: nat)
    requires Inv(c, g, s) && StepDRead(c, s, n).Some?
    ensures Measure(c, g, StepDRead(c, s, n).value) < Measure(c, g, s)
  {
    if |s.d.acc| + n == s.d.want && s.d.pc.DManifestHeader? {
      ManifestHeaderIsLength(c, g, s, n);
    } else {
      PlainDecodeReadDecreases(c, g, s, n);
    }
  }

  lemma {:induction false} PlainDecodeReadDecreases(c: Config, g: Jobs, s: State, n: nat)
    requires DecodeVars(c, g, s.d) && StepDRead(c, s, n).Some?
    requires |s.d.acc| + n < s.d.want || s.d.pc.DManifestBody?
    ensures Measure(c, g, StepDRead(c, s, n).value) < Measure(c, g, s)
  {
    assert |s.d.acc + s.p2d[..n]| == |s.d.acc| + n;
  }

  lemma {:induction false} PollDecreases(c: Config, g: Jobs, s: State)
    requires Inv(c, g, s) && StepDPoll(s).Some?
    ensures Measure(c, g, StepDPoll(s).value) < Measure(c, g, s)
  {
    PollSees(c, g, s);
    PolledDecreases(c, g, s);
  }

  lemma {:induction false} PolledDecreases(c: Config, g: Jobs, s: State)
    requires StepDPoll(s).Some? && s.d.chunksReceived <= Chunks(At(g, s.d.k))
    ensures Measure(c, g, StepDPoll(s).value) < Measure(c, g, s)
  {
  }

  lemma {:induction false} SetupDecreases(c: Config, g: Jobs, s: State, a: Action)
    requires Local(c, g, s) && Step(c, s, a).Some?
    requires a.DPostInitial? || a.DSendReady? || a.DPrompt?
    ensures DecodeLeft(c, g, Step(c, s, a).value.d) < DecodeLeft(c, g, s.d)
    ensures Step(c, s, a).value.p == s.p && Step(c, s, a).value.wire == s.wire
  {
  }

  lemma {:induction false} ReceiveDecreases(c: Config, g: Jobs, s: State, a: Action)
    requires c.chunkSize > 0 && DecodeVars(c, g, s.d) && s.d.k < |g| && Step(c, s, a).Some?
    requires a.DRepostChunk? || a.DSendCredit? || a.DSendDone? || a.DRepostLast? || a.DCopyOut?
    ensures DecodeLeft(c, g, Step(c, s, a).value.d) < DecodeLeft(c, g, s.d)
    ensures Step(c, s, a).value.p == s.p && Step(c, s, a).value.wire == s.wire
  {
  }

  lemma {:induction false} PrefillReadDecreases(c: Config, s: State, n: nat)
    requires ValidConfig(c) && Inv(c, JobsOf(c), s) && StepPRead(c, s, n).Some?
    ensures Measure(c, JobsOf(c), StepPRead(c, s, n).value) < Measure(c, JobsOf(c), s)
  {
    var g := JobsOf(c);
    if |s.p.acc| + n == s.p.want && s.p.pc.PHeader? {
      HeaderReadDecreases(c, g, s, n);
    } else if |s.p.acc| + n == s.p.want && s.p.pc.PPrompt? {
      PromptReadDecreases(c, s, n);
    } else {
      PlainReadDecreases(c, g, s, n);
    }
  }

  lemma {:induction false} PlainReadDecreases(c: Config, g: Jobs, s: State, n: nat)
    requires c.chunkSize > 0 && Control(g, s) && PrefillVars(c, g, s.p) && StepPRead(c, s, n).Some?
    requires |s.p.acc| + n < s.p.want || s.p.pc.PReady? || s.p.pc.PFinal?
    ensures Measure(c, g, StepPRead(c, s, n).value) < Measure(c, g, s)
  {
    assert |s.p.acc + s.d2p[..n]| == |s.p.acc| + n;
  }

  lemma {:induction false} HeaderReadDecreases(c: Config, g: Jobs, s: State, n: nat)
    requires Inv(c, g, s) && StepPRead(c, s, n).Some? && s.p.pc.PHeader? && |s.p.acc| + n == s.p.want
    ensures Measure(c, g, StepPRead(c, s, n).value) < Measure(c, g, s)
  {
    HeaderReadIsLength(c, g, s, n);
    if s.d.pc.DManifestHeader? {
      assert PrefillFrom(g, s.p.served) == PrefillCost(g[s.p.served]) + PrefillFrom(g, s.p.served + 1);
    }
  }

  lemma {:induction false} PromptReadDecreases(c: Config, s: State, n: nat)
    requires ValidConfig(c) && Inv(c, JobsOf(c), s) && StepPRead(c, s, n).Some?
    requires s.p.pc.PPrompt? && |s.p.acc| + n == s.p.want
    ensures Measure(c, JobsOf(c), StepPRead(c, s, n).value) < Measure(c, JobsOf(c), s)
  {
    PromptReadIsPrompt(c, JobsOf(c), s, n);
    var s' := StepPRead(c, s, n).value;
    assert s'.p.numChunks == Chunks(JobFor(c, c.prompts[s.p.served]));
    assert JobsOf(c)[s.p.served] == JobFor(c, c.prompts[s.p.served]);
    ServeDecreases(c, JobsOf(c), s, s'.p);
  }

  lemma {:induction false} ServeDecreases(c: Config, g: Jobs, s: State, p: Prefill)
    requires Control(g, s) && PrefillVars(c, g, s.p) && s.p.pc.PPrompt?
    requires p.pc.PTop? && p.served == s.p.served && p.i == p.creditsReceived == 0
    requires p.numChunks == Chunks(At(g, p.served))
    ensures PrefillLeft(g, p) < PrefillLeft(g, s.p)
  {
  }

  lemma {:induction false} WriteDecreases(c: Config, g: Jobs, s: State, a: Action)
    requires c.chunkSize > 0 && Control(g, s) && PrefillVars(c, g, s.p) && Step(c, s, a).Some?
    requires a.PWriteChunk? || a.PWriteSentinel?
    ensures PrefillLeft(g, Step(c, s, a).value.p) + 1 < PrefillLeft(g, s.p)
    ensures Step(c, s, a).value.d == s.d && |Step(c, s, a).value.wire| == |s.wire| + 1
  {
    if a.PWriteChunk? {
      WriteChunkDecreases(c, g, s);
    } else {
      WriteSentinelDecreases(c, g, s);
    }
  }

  lemma {:induction false} WriteChunkDecreases(c: Config, g: Jobs, s: State)
    requires Control(g, s) && PrefillVars(c, g, s.p) && s.p.pc.PWrite?
    ensures PrefillLeft(g, s.p.(pc := PTop, i := s.p.i + 1, credits := s.p.credits - 1)) + 1 < PrefillLeft(g, s.p)
  {
  }

  lemma {:induction false} WriteSentinelDecreases(c: Config, g: Jobs, s: State)
    requires Control(g, s) && PrefillVars(c, g, s.p) && StepPWriteSentinel(s).Some?
    ensures PrefillLeft(g, StepPWriteSentinel(s).value.p) + 1 < PrefillLeft(g, s.p)
  {
  }

  lemma {:induction false} DeliverDecreases(c: Config, g: Jobs, s: State)
    requires StepDeliver(s).Some?
    ensures Measure(c, g, StepDeliver(s).value) < Measure(c, g, s)
  {
  }

  lemma {:induction false} DrainDecreases(c: Config, g: Jobs, s: State, n: nat)
    requires Local(c, g, s) && StepPDrain(s, n).Some?
    ensures Measure(c, g, StepPDrain(s, n).value) < Measure(c, g, s)
  {
  }

  lemma {:induction false} BlockDecreases(c: Config, g: Jobs, s: State)
    requires Local(c, g, s) && StepPBlock(s).Some?
    ensures Measure(c, g, StepPBlock(s).value) < Measure(c, g, s)
  {
  }

  lemma {:induction false} StepDecreases(c: Config, s: State, a: Action)
    requires ValidConfig(c) && Inv(c, JobsOf(c), s) && Step(c, s, a).Some?
    ensures Measure(c, JobsOf(c), Step(c, s, a).value) < Measure(c, JobsOf(c), s)
  {
    if ByDecode(a) {
      DecodeStepDecreases(c, JobsOf(c), s, a);
    } else {
      PrefillStepDecreases(c, s, a);
    }
  }

  lemma {:induction false} DecodeStepDecreases(c: Config, g: Jobs, s: State, a: Action)
    requires c.chunkSize > 0 && Inv(c, g, s) && ByDecode(a) && Step(c, s, a).Some?
    ensures Measure(c, g, Step(c, s, a).value) < Measure(c, g, s)
  {
    match a
    case DRead(n) => DecodeReadDecreases(c, g, s, n);
    case DPollOne => PollDecreases(c, g, s);
    case DPostInitial => SetupDecreases(c, g, s, a);
    case DSendReady => SetupDecreases(c, g, s, a);
    case DPrompt => SetupDecreases(c, g, s, a);
    case DRepostChunk => ReceiveDecreases(c, g, s, a);
    case DSendCredit => ReceiveDecreases(c, g, s, a);
    case DSendDone => ReceiveDecreases(c, g, s, a);
    case DRepostLast => ReceiveDecreases(c, g, s, a);
    case DCopyOut => ReceiveDecreases(c, g, s, a);
  }

  lemma {:induction false} PrefillStepDecreases(c: Config, s: State, a: Action)
    requires ValidConfig(c) && Inv(c, JobsOf(c), s) && !ByDecode(a) && Step(c, s, a).Some?
    ensures Measure(c, JobsOf(c), Step(c, s, a).value) < Measure(c, JobsOf(c), s)
  {
    match a
    case PRead(n) => PrefillReadDecreases(c, s, n);
    case PBlock => BlockDecreases(c, JobsOf(c), s);
    case PDrainCredits(n) => DrainDecreases(c, JobsOf(c), s, n);
    case Deliver => DeliverDecreases(c, JobsOf(c), s);
    case PWriteChunk => WriteDecreases(c, JobsOf(c), s, a);
    case PWriteSentinel => WriteDecreases(c, JobsOf(c), s, a);
  }

  /** A run from a state that satisfies the invariant takes at most Measure steps, whatever
      the interleaving, the pieces TCP delivers and the moments writes land. */
  lemma {:induction false} RunBounded(c: Config, s: State, acts: seq<Action>)
    requires ValidConfig(c) && Inv(c, JobsOf(c), s) && Exec(c, s, acts).Some?
    ensures |acts| <= Measure(c, JobsOf(c), s)
    decreases |acts|
  {
    MeasureIsNat(c, JobsOf(c), s);
    if acts != [] {
      var next := Step(c, s, acts[0]);
      StepKeeps(c, s, acts[0]);
      StepDecreases(c, s, acts[0]);
      RunBounded(c, next.value, acts[1..]);
    }
  }

  // ------------------------------------------------------------------ end to end

  /** What decode holds for prompt k is what prefill computed for prompt k, byte for byte, with
      the manifest of it. */
  predicate Delivered(o: Output, layers: seq<Layer>) {
    o.bytes == Pack(layers) && o.manifest == ManifestOf(layers)
  }

  /** Every completed prompt of every run, whatever follows: the bytes are all there and can be
      rebuilt, and the rebuilt cache shows every K and V element exactly when K and V share shape
      and dtype in every layer and lie at multiples of their element size. */
  lemma {:induction false} CompletedPromptsRecovered(c: Config, s: State, k: nat)
    requires ValidConfig(c) && Reachable(c, s) && k < s.d.k
    ensures k < |c.prompts| && k < |s.d.outputs|
    ensures Delivered(s.d.outputs[k], c.model(c.prompts[k])) && CanRebuild(c, c.prompts[k])
    ensures var layers := c.model(c.prompts[k]);
      WellFormedLayers(layers) ==>
        (ShowsAll(s.d.outputs[k].bytes, layers) <==> Uniform(layers) && Aligned(layers))
  {
    ReachableInv(c, s);
    ReachableEarned(c, s);
    CompletedOutput(c, s, k);
    var layers := c.model(c.prompts[k]);
    if WellFormedLayers(layers) {
      RecoversAllIff(layers, Pack(layers));
    }
  }

  lemma {:induction false} CompletedOutput(c: Config, s: State, k: nat)
    requires ValidConfig(c) && Inv(c, JobsOf(c), s) && k < s.d.k
    ensures k < |c.prompts| && k < |s.d.outputs| && Delivered(s.d.outputs[k], c.model(c.prompts[k]))
  {
    assert JobsOf(c)[k] == JobFor(c, c.prompts[k]);
  }

  lemma {:induction false} FinishedServes(c: Config, s: State)
    requires ValidConfig(c) && Inv(c, JobsOf(c), s) && Earned(c, s) && Finished(s)
    ensures Serves(c)
  {
    FinishedIsQuiet(c, JobsOf(c), s);
  }

  /** A run that cannot be continued is a finished session, with one output per prompt, if and
      only if the receive queue holds window + 1 receives and every prompt's cache can be rebuilt. */
  lemma {:induction false} MaximalRunsFinishIff(c: Config, s0: State, acts: seq<Action>)
    requires ValidConfig(c) && Start(c, s0) && Exec(c, s0, acts).Some?
    requires forall a: Action :: Step(c, Exec(c, s0, acts).value, a).None?
    ensures Finished(Exec(c, s0, acts).value) <==> Serves(c)
    ensures var s := Exec(c, s0, acts).value;
      Serves(c) ==> s.d.k == |s.d.outputs| == |c.prompts| && s.d2p == [] && s.p2d == [] && s.wire == [] && s.cq == []
  {
    var s := Exec(c, s0, acts).value;
    assert Reachable(c, s);
    NeverStuck(c, s);
    ReachableInv(c, s);
    ReachableEarned(c, s);
    if Finished(s) {
      FinishedServes(c, s);
      FinishedIsQuiet(c, JobsOf(c), s);
    }
  }

  /** A cache as models make it: not empty, each layer's K and V of one shape, one dtype throughout. */
  ghost predicate Ordinary(layers: seq<Layer>) {
    && WellFormedLayers(layers) && Uniform(layers) && |Pack(layers)| > 0
    && exists d: Dtype :: OneDtype(layers, d)
  }

  /** Delivered, and every K and V element can be read back. */
  ghost predicate Recovered(o: Output, layers: seq<Layer>) {
    Delivered(o, layers) && WellFormedLayers(layers) && ShowsAll(o.bytes, layers)
  }

  /** Ordinary caches and a deep enough queue are all a session needs: however it goes, it finishes
      with every element of every prompt's cache. */
  lemma {:induction false} OrdinarySessionsRecover(c: Config, s0: State, acts: seq<Action>)
    requires ValidConfig(c) && Start(c, s0) && Exec(c, s0, acts).Some?
    requires forall a: Action :: Step(c, Exec(c, s0, acts).value, a).None?
    requires c.window + 1 <= c.recvDepth
    requires forall k :: 0 <= k < |c.prompts| ==> Ordinary(c.model(c.prompts[k]))
    ensures var s := Exec(c, s0, acts).value;
      && Finished(s) && |s.d.outputs| == |c.prompts|
      && forall k :: 0 <= k < |c.prompts| ==> Recovered(s.d.outputs[k], c.model(c.prompts[k]))
  {
    var s := Exec(c, s0, acts).value;
    assert Reachable(c, s);
    forall k | 0 <= k < |c.prompts| ensures CanRebuild(c, c.prompts[k]) {
      OrdinaryIsWhole(c.model(c.prompts[k]));
    }
    MaximalRunsFinishIff(c, s0, acts);
    forall k | 0 <= k < |c.prompts| ensures Recovered(s.d.outputs[k], c.model(c.prompts[k])) {
      CompletedPromptsRecovered(c, s, k);
      OrdinaryIsWhole(c.model(c.prompts[k]));
    }
  }

  lemma {:induction false} OrdinaryIsWhole(layers: seq<Layer>)
    requires Ordinary(layers)
    ensures Uniform(layers) && Aligned(layers) && Rebuilds(Pack(layers), ManifestOf(layers))
  {
    var d :| OneDtype(layers, d);
    OneDtypeAligns(layers, d);
    AlignedRebuilds(layers);
  }

  /** With a queue that is too shallow decode never gets past posting its receives: no prompt is
      sent, let alone served. */
  lemma {:induction false} ShallowQueueServesNothing(c: Config, s: State)
    requires ValidConfig(c) && Reachable(c, s) && c.window + 1 > c.recvDepth
    ensures s.d.pc.DPrePost? && s.posted <= c.recvDepth && s.d.k == 0 && s.d2p == [] && !Finished(s)
  {
    ReachableInv(c, s);
    ReachableEarned(c, s);
    NothingSentYet(c, JobsOf(c), s);
  }

  lemma {:induction false} NothingSentYet(c: Config, g: Jobs, s: State)
    requires Inv(c, g, s) && s.d.pc.DPrePost?
    ensures s.d.k == 0 && s.d2p == []
  {
    assert s.p.acc + s.d2p == [];
  }

  lemma {:induction false} FinishedIsQuiet(c: Config, g: Jobs, s: State)
    requires Inv(c, g, s) && Finished(s)
    ensures s.d.k == |s.d.outputs| == |c.prompts| == |g| && s.d2p == [] && s.p2d == [] && s.wire == [] && s.cq == []
  {
    assert s.d2p == [] + s.d2p == [];
  }

  /** Drives a session under an arbitrary scheduler: whenever the scheduler's pick is not
      possible, NextAction is taken, while it is.  It always ends, and finished exactly if the
      configuration serves its prompts, with every prompt's cache delivered. */
  method RunSession(c: Config, host: seq<Byte>, mem: seq<Byte>, pick: State -> Action) returns (s: State, steps: nat)
    requires ValidConfig(c) && |host| == |mem| == c.bufSize
    ensures Finished(s) <==> Serves(c)
    ensures Serves(c) ==> |s.d.outputs| == |c.prompts|
    ensures s.d.k <= |c.prompts| && s.d.k <= |s.d.outputs|
    ensures forall k :: 0 <= k < s.d.k ==> Delivered(s.d.outputs[k], c.model(c.prompts[k]))
    ensures Serves(c) ==> s.d.k == |c.prompts|
    ensures steps <= Measure(c, JobsOf(c), Init(c, host, mem))
  {
    s := Init(c, host, mem);
    steps := 0;
    PlanHolds(c);
    InitEstablishes(c, JobsOf(c), host, mem);
    MeasureIsNat(c, JobsOf(c), s);
    while Step(c, s, NextAction(s)).Some?
      invariant Inv(c, JobsOf(c), s) && Earned(c, s)
      invariant Measure(c, JobsOf(c), s) >= 0
      invariant steps + Measure(c, JobsOf(c), s) <= Measure(c, JobsOf(c), Init(c, host, mem))
      decreases Measure(c, JobsOf(c), s)
    {
      var a := if Step(c, s, pick(s)).Some? then pick(s) else NextAction(s);
      StepKeeps(c, s, a);
      StepEarns(c, s, a);
      StepDecreases(c, s, a);
      s := Step(c, s, a).value;
      MeasureIsNat(c, JobsOf(c), s);
      steps := steps + 1;
    }
    WhereItEnds(c, s);
  }

  lemma {:induction false} WhereItEnds(c: Config, s: State)
    requires ValidConfig(c) && Inv(c, JobsOf(c), s) && Earned(c, s) && Step(c, s, NextAction(s)).None?
    ensures Finished(s) <==> Serves(c)
    ensures Serves(c) ==> s.d.k == |s.d.outputs| == |c.prompts|
    ensures s.d.k <= |c.prompts| && s.d.k <= |s.d.outputs|
    ensures forall k :: 0 <= k < s.d.k ==> Delivered(s.d.outputs[k], c.model(c.prompts[k]))
  {
    if Serves(c) && !Finished(s) {
      CanMove(c, s);
    }
    if Finished(s) {
      FinishedServes(c, s);
      FinishedIsQuiet(c, JobsOf(c), s);
    }
    forall k | 0 <= k < s.d.k
      ensures k < |c.prompts| && k < |s.d.outputs| && Delivered(s.d.outputs[k], c.model(c.prompts[k]))
    {
      CompletedOutput(c, s, k);
    }
    DoneSoFar(c, JobsOf(c), s);
  }

  lemma {:induction false} DoneSoFar(c: Config, g: Jobs, s: State)
    requires Inv(c, g, s)
    ensures s.d.k <= |g| && s.d.k == |s.d.outputs|
  {
  }
}
