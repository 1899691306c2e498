/** Whole sessions of the KVCache transfer: safety of every reachable state, framing,
    progress, and what decode ends up with. */
module KvSession {
  import opened Arithmetic
  import opened Wrappers
  import opened Wire
  import opened KvPacking
  import opened KvTransfer
  import opened KvInvariant

  // ------------------------------------------------------------------- sessions

  /** The premises of a fault-free session, in terms of the configuration alone. */
  ghost predicate ValidConfig(c: Config) {
    && c.window >= 1 && c.chunkSize >= 1 && c.bufSize >= 4
    && forall k :: 0 <= k < |c.prompts| ==> ValidPrompt(c, c.prompts[k])
  }

  ghost predicate ValidPrompt(c: Config, prompt: seq<Byte>)
    requires c.chunkSize >= 1
  {
    var meta := MetaFor(c, c.model(prompt));
    && 1 <= |prompt| < U32
    && meta.totalBytes <= c.bufSize
    && 1 <= |c.toJson(meta)| < U32
    && c.fromJson(c.toJson(meta)) == meta
  }

  /** Why a prompt must not be empty: its frame is then the shutdown frame, byte for byte. */
  lemma {:induction false} EmptyPromptIsShutdown(prompt: seq<Byte>)
    requires |prompt| < U32
    ensures Values(PromptFrame(prompt)) == BigEndian32(0) <==> prompt == []
  {
    var header := Tag(PromptHeader, BigEndian32(|prompt|));
    assert PromptFrame(prompt) == header + Tag(PromptText, prompt);
    assert |Values(PromptFrame(prompt))| == 4 + |prompt|;
    if prompt == [] {
      assert Values(PromptFrame(prompt)) == Values(header) == BigEndian32(0);
    }
  }

  ghost function JobFor(c: Config, prompt: seq<Byte>): Job
    requires c.chunkSize >= 1
  {
    var layers := c.model(prompt);
    var meta := MetaFor(c, layers);
    Job(prompt, Pack(layers), meta, c.toJson(meta),
        seq(meta.numChunks, i requires 0 <= i => ChunkWrite(c, meta.totalBytes, i)) + [SENTINEL_WRITE])
  }

  ghost function JobsOf(c: Config): Jobs
    requires c.chunkSize >= 1
  {
    seq(|c.prompts|, k requires 0 <= k < |c.prompts| => JobFor(c, c.prompts[k]))
  }

  lemma {:induction false} ChunkCount(total: nat, size: nat, i: nat)
    requires size > 0
    ensures i < CeilDiv(total, size) <==> i * size < total
  {
    var n := CeilDiv(total, size);
    assert n * size <= total + size - 1 < n * size + size;
    if i < n {
      assert (i + 1) * size <= n * size;
    } else {
      assert n * size <= i * size;
    }
  }

  /** The chunks of a job cover its bytes consecutively, chunkSize at a time, the last one perhaps
      short; chunk i is announced as layer 0, chunk i. */
  lemma {:induction false} JobCovers(c: Config, prompt: seq<Byte>, i: nat)
    requires c.chunkSize >= 1
    requires var j := JobFor(c, prompt); i < Chunks(j)
    ensures Covers(JobFor(c, prompt), i) && JobFor(c, prompt).writes[i].len >= 1
    ensures var w := JobFor(c, prompt).writes[i];
      && w.offset == i * c.chunkSize && w.len == Least(c.chunkSize, |Pack(c.model(prompt))| - w.offset)
      && ImmLayer(w.imm) == 0 && ImmChunk(w.imm) == i % 0x1_0000 && w.imm == i % 0x1_0000
  {
    var j := JobFor(c, prompt);
    var t := |j.packed|;
    ChunkCount(t, c.chunkSize, i);
    ChunkCount(t, c.chunkSize, i + 1);
    assert (i + 1) * c.chunkSize == i * c.chunkSize + c.chunkSize;
    assert j.writes[i] == ChunkWrite(c, t, i);
    if i + 1 < Chunks(j) {
      assert j.writes[i + 1] == ChunkWrite(c, t, i + 1);
    }
    ImmRoundTrip(0, i);
  }

  lemma {:induction false} JobGood(c: Config, prompt: seq<Byte>)
    requires c.chunkSize >= 1 && c.bufSize >= 4 && ValidPrompt(c, prompt)
    ensures JobFits(c, JobFor(c, prompt)) && Computed(c, JobFor(c, prompt)) && Scheduled(c, JobFor(c, prompt))
  {
    var j := JobFor(c, prompt);
    ChunkCount(|j.packed|, c.chunkSize, 0);
    forall i | 0 <= i < Chunks(j) ensures Covers(j, i) {
      JobCovers(c, prompt, i);
    }
  }

  lemma {:induction false} PlanHolds(c: Config)
    requires ValidConfig(c)
    ensures Plan(c, JobsOf(c))
  {
    forall k | 0 <= k < |c.prompts| ensures JobFits(c, JobsOf(c)[k]) {
      JobGood(c, c.prompts[k]);
    }
  }

  /** The states of every interleaving: any list of actions that the programs allow. */
  ghost function Exec(c: Config, s: State, acts: seq<Action>): Option<State>
    requires c.chunkSize > 0
    decreases |acts|
  {
    if acts == [] then Some(s)
    else match Step(c, s, acts[0])
      case None => None
      case Some(s') => Exec(c, s', acts[1..])
  }

  ghost predicate Start(c: Config, s: State) {
    exists host: seq<Byte>, mem: seq<Byte> :: |host| == |mem| == c.bufSize && s == Init(c, host, mem)
  }

  ghost predicate Reachable(c: Config, s: State)
    requires c.chunkSize > 0
  {
    exists s0: State, acts: seq<Action> :: Start(c, s0) && Exec(c, s0, acts) == Some(s)
  }

  predicate ByDecode(a: Action) {
    match a
    case PRead(_) => false
    case PDrainCredits(_) => false
    case PBlock => false
    case PWriteChunk => false
    case PWriteSentinel => false
    case Deliver => false
    case _ => true
  }

  lemma {:induction false} StepKeeps(c: Config, s: State, a: Action)
    requires ValidConfig(c) && Inv(c, JobsOf(c), s) && Step(c, s, a).Some?
    ensures Inv(c, JobsOf(c), Step(c, s, a).value)
  {
    if ByDecode(a) {
      DecodeStepKeeps(c, JobsOf(c), s, a);
    } else {
      PrefillStepKeeps(c, s, a);
    }
  }

  lemma {:induction false} DecodeStepKeeps(c: Config, g: Jobs, s: State, a: Action)
    requires c.chunkSize > 0 && Inv(c, g, s) && Step(c, s, a).Some? && ByDecode(a)
    ensures Inv(c, g, Step(c, s, a).value)
  {
    match a
    case DPostInitial => PostInitialKeeps(c, g, s);
    case DSendReady => SendReadyKeeps(c, g, s);
    case DPrompt => PromptKeeps(c, g, s);
    case DRead(n) => DecodeReadKeeps(c, g, s, n);
    case DPollOne => PollKeeps(c, g, s);
    case DRepostChunk => RepostKeeps(c, g, s);
    case DSendCredit => SendCreditKeeps(c, g, s);
    case DSendDone => SendDoneKeeps(c, g, s);
    case DRepostLast => RepostLastKeeps(c, g, s);
    case DCopyOut => CopyOutKeeps(c, g, s);
  }

  lemma {:induction false} PrefillStepKeeps(c: Config, s: State, a: Action)
    requires ValidConfig(c) && Inv(c, JobsOf(c), s) && Step(c, s, a).Some? && !ByDecode(a)
    ensures Inv(c, JobsOf(c), Step(c, s, a).value)
  {
    var g := JobsOf(c);
    match a
    case PRead(n) => PrefillReadKeeps(c, s, n);
    case PBlock => BlockKeeps(c, g, s);
    case PDrainCredits(n) => DrainKeeps(c, g, s, n);
    case PWriteChunk =>
      JobGood(c, c.prompts[s.p.served]);
      WriteChunkKeeps(c, g, s);
    case PWriteSentinel => WriteSentinelKeeps(c, g, s);
    case Deliver => DeliverKeeps(c, g, s);
  }

  lemma {:induction false} PrefillReadKeeps(c: Config, s: State, n: nat)
    requires ValidConfig(c) && Inv(c, JobsOf(c), s) && StepPRead(c, s, n).Some?
    ensures Inv(c, JobsOf(c), StepPRead(c, s, n).value)
  {
    var g := JobsOf(c);
    if |s.p.acc| + n < s.p.want {
      PartialReadKeeps(c, g, s, n);
    } else if s.p.pc.PReady? {
      ReadyReadKeeps(c, g, s, n);
    } else if s.p.pc.PHeader? {
      HeaderReadKeeps(c, g, s, n);
    } else if s.p.pc.PFinal? {
      FinalReadKeeps(c, g, s, n);
    } else {
      JobGood(c, c.prompts[s.p.served]);
      PromptReadKeeps(c, g, s, n);
    }
  }

  lemma {:induction false} RunKeeps(c: Config, s: State, acts: seq<Action>)
    requires ValidConfig(c) && Inv(c, JobsOf(c), s) && Exec(c, s, acts).Some?
    ensures Inv(c, JobsOf(c), Exec(c, s, acts).value)
    decreases |acts|
  {
    if acts != [] {
      var next := Step(c, s, acts[0]);
      StepKeeps(c, s, acts[0]);
      RunKeeps(c, next.value, acts[1..]);
    }
  }

  lemma {:induction false} ReachableInv(c: Config, s: State)
    requires ValidConfig(c) && Reachable(c, s)
    ensures Inv(c, JobsOf(c), s)
  {
    var s0: State, acts: seq<Action> :| Start(c, s0) && Exec(c, s0, acts) == Some(s);
    var host: seq<Byte>, mem: seq<Byte> :| |host| == |mem| == c.bufSize && s0 == Init(c, host, mem);
    PlanHolds(c);
    InitEstablishes(c, JobsOf(c), host, mem);
    RunKeeps(c, s0, acts);
  }

  // ------------------------------------------------------- what a session needs

  /** Whether the configuration can be served to the end: the receive queue holds the receives
      decode posts up front, and every prompt's cache can be rebuilt from its bytes. */
  ghost predicate Serves(c: Config)
    requires c.chunkSize >= 1
  {
    c.window + 1 <= c.recvDepth && forall k :: 0 <= k < |c.prompts| ==> CanRebuild(c, c.prompts[k])
  }

  predicate CanRebuild(c: Config, prompt: seq<Byte>) {
    Rebuilds(Pack(c.model(prompt)), ManifestOf(c.model(prompt)))
  }

  /** What getting this far has shown of the configuration. */
  ghost predicate Earned(c: Config, s: State) {
    && s.posted <= c.recvDepth
    && (!s.d.pc.DPrePost? ==> c.window + 1 <= c.recvDepth)
    && (forall j :: 0 <= j < s.d.k && j < |c.prompts| ==> CanRebuild(c, c.prompts[j]))
  }

  lemma {:induction false} StepEarns(c: Config, s: State, a: Action)
    requires ValidConfig(c) && Inv(c, JobsOf(c), s) && Earned(c, s) && Step(c, s, a).Some?
    ensures Earned(c, Step(c, s, a).value)
  {
    if a.DPostInitial? {
      PostInitialEarns(c, JobsOf(c), s);
    } else if a.DCopyOut? {
      CopyOutEarns(c, s);
    } else if ByDecode(a) {
      DecodeStepEarns(c, s, a);
    } else {
      PrefillStepEarns(c, s, a);
    }
  }

  lemma {:induction false} DecodeStepEarns(c: Config, s: State, a: Action)
    requires c.chunkSize > 0 && Step(c, s, a).Some? && ByDecode(a) && !a.DPostInitial? && !a.DCopyOut?
    ensures var s' := Step(c, s, a).value;
      s'.d.k == s.d.k && (s.posted <= c.recvDepth ==> s'.posted <= c.recvDepth) && !s.d.pc.DPrePost?
  {
  }

  lemma {:induction false} PrefillStepEarns(c: Config, s: State, a: Action)
    requires c.chunkSize > 0 && Step(c, s, a).Some? && !ByDecode(a)
    ensures Step(c, s, a).value.d == s.d && Step(c, s, a).value.posted <= s.posted
  {
  }

  lemma {:induction false} PostInitialEarns(c: Config, g: Jobs, s: State)
    requires Inv(c, g, s) && Earned(c, s) && StepDPostInitial(c, s).Some?
    ensures Earned(c, StepDPostInitial(c, s).value)
  {
    assert s.posted + |s.cq| + Held(s.d) == s.d.turns && Held(s.d) == 0;
    BeforeReady(c, g, s);
  }

  lemma {:induction false} BeforeReady(c: Config, g: Jobs, s: State)
    requires Inv(c, g, s) && s.d.pc.DPrePost?
    ensures s.cq == [] && s.wire == []
  {
  }

  lemma {:induction false} CopyOutEarns(c: Config, s: State)
    requires ValidConfig(c) && Inv(c, JobsOf(c), s) && Earned(c, s) && StepDCopyOut(s).Some?
    ensures Earned(c, StepDCopyOut(s).value)
  {
    BufferHolds(c, s);
    CopiedRebuilds(c, s);
    OneMoreEarned(c, s);
  }

  lemma {:induction false} CopiedRebuilds(c: Config, s: State)
    requires StepDCopyOut(s).Some? && s.d.k < |c.prompts|
    requires s.mem[..s.d.meta.totalBytes] == Pack(c.model(c.prompts[s.d.k]))
    requires s.d.meta.manifest == ManifestOf(c.model(c.prompts[s.d.k]))
    ensures CanRebuild(c, c.prompts[s.d.k])
  {
  }

  lemma {:induction false} OneMoreEarned(c: Config, s: State)
    requires Earned(c, s) && StepDCopyOut(s).Some? && s.d.k < |c.prompts| && CanRebuild(c, c.prompts[s.d.k])
    ensures Earned(c, StepDCopyOut(s).value)
  {
  }

  lemma {:induction false} BufferHolds(c: Config, s: State)
    requires ValidConfig(c) && Inv(c, JobsOf(c), s) && Received(s.d.pc)
    ensures s.d.k < |c.prompts|
    ensures var layers := c.model(c.prompts[s.d.k]);
      && s.d.meta.totalBytes == |Pack(layers)| <= |s.mem| && s.mem[..s.d.meta.totalBytes] == Pack(layers)
      && s.d.meta.manifest == ManifestOf(layers)
  {
    assert JobsOf(c)[s.d.k] == JobFor(c, c.prompts[s.d.k]);
  }

  lemma {:induction false} RunEarns(c: Config, s: State, acts: seq<Action>)
    requires ValidConfig(c) && Inv(c, JobsOf(c), s) && Earned(c, s) && Exec(c, s, acts).Some?
    ensures Earned(c, Exec(c, s, acts).value)
    decreases |acts|
  {
    if acts != [] {
      StepKeeps(c, s, acts[0]);
      StepEarns(c, s, acts[0]);
      RunEarns(c, Step(c, s, acts[0]).value, acts[1..]);
    }
  }

  lemma {:induction false} ReachableEarned(c: Config, s: State)
    requires ValidConfig(c) && Reachable(c, s)
    ensures Earned(c, s)
  {
    var s0: State, acts: seq<Action> :| Start(c, s0) && Exec(c, s0, acts) == Some(s);
    var host: seq<Byte>, mem: seq<Byte> :| |host| == |mem| == c.bufSize && s0 == Init(c, host, mem);
    PlanHolds(c);
    InitEstablishes(c, JobsOf(c), host, mem);
    RunEarns(c, s0, acts);
  }

  // ----------------------------------------------------------------- data safety

  /** From the sentinel until it has copied the range out, decode's buffer holds exactly the
      bytes prefill packed for this prompt, and its manifest is the one for them. */
  lemma {:induction false} SentinelMeansDelivered(c: Config, s: State)
    requires ValidConfig(c) && Reachable(c, s) && Received(s.d.pc)
    ensures s.d.k < |c.prompts|
    ensures var packed := Pack(c.model(c.prompts[s.d.k]));
      s.d.meta.totalBytes == |packed| <= |s.mem| && s.mem[..s.d.meta.totalBytes] == packed
    ensures s.d.meta.manifest == ManifestOf(c.model(c.prompts[s.d.k]))
  {
    ReachableInv(c, s);
    BufferHolds(c, s);
  }

  /** In that interval no step of anyone writes the buffer. */
  lemma {:induction false} NothingWritesBeforeCopy(c: Config, s: State, a: Action)
    requires ValidConfig(c) && Reachable(c, s) && Received(s.d.pc) && Step(c, s, a).Some?
    ensures Step(c, s, a).value.mem == s.mem
    ensures s.wire == [] && !InLoop(s.p.pc)
  {
    ReachableInv(c, s);
    ReceivedMeansQuiet(c, JobsOf(c), s);
  }

  lemma {:induction false} ReceivedMeansQuiet(c: Config, g: Jobs, s: State)
    requires Inv(c, g, s) && Received(s.d.pc)
    ensures s.wire == [] && !InLoop(s.p.pc)
  {
  }

  // --------------------------------------------------------------------- framing

  /** The role prefill takes the j-th byte it reads next to have. */
  function RoleRead(p: Prefill, j: nat): Role {
    match p.pc
    case PReady => ReadySignal
    case PHeader => PromptHeader
    case PPrompt => PromptText
    case PFinal => if |p.acc| + j + 1 < p.want then Credit else DoneSignal
    case _ => Credit
  }

  /** How many bytes of the decode-to-prefill stream an action takes. */
  function Consumes(s: State, a: Action): nat {
    match a
    case PRead(n) => n
    case PDrainCredits(n) => n
    case PBlock => 1
    case _ => 0
  }

  /** Every byte prefill takes off the stream was sent in the role it is taken in. */
  lemma {:induction false} EveryByteInItsRole(c: Config, s: State, a: Action, j: nat)
    requires ValidConfig(c) && Reachable(c, s) && Step(c, s, a).Some? && j < Consumes(s, a)
    ensures j < |s.d2p| && s.d2p[j].role == RoleRead(s.p, j)
  {
    ReachableInv(c, s);
    ConsumesWhatIsThere(c, s, a);
    RoleOfPending(c, JobsOf(c), s, j);
  }

  lemma {:induction false} ConsumesWhatIsThere(c: Config, s: State, a: Action)
    requires c.chunkSize > 0 && Step(c, s, a).Some?
    ensures Consumes(s, a) <= |s.d2p|
    ensures Consumes(s, a) > 0 && Reading(s.p) ==> |s.p.acc| + Consumes(s, a) <= s.p.want
  {
  }

  lemma {:induction false} RoleOfPending(c: Config, g: Jobs, s: State, j: nat)
    requires Inv(c, g, s) && j < |s.d2p| && (Reading(s.p) ==> |s.p.acc| + j < s.p.want)
    ensures s.d2p[j].role == RoleRead(s.p, j)
  {
    var at := |s.p.acc| + j;
    assert s.d2p[j] == (s.p.acc + s.d2p)[at] == ToPrefill(c, g, s)[at];
    if s.p.pc.PHeader? {
      assert NextFrame(g, s.d) != [];
    }
  }

  /** The final read asks for at least one byte, and finishing it leaves nothing in transit but
      the whole header and text of the next prompt (or of the shutdown), if already sent. */
  lemma {:induction false} FinalReadEmptiesPrompt(c: Config, s: State, n: nat)
    requires ValidConfig(c) && Reachable(c, s) && s.p.pc.PFinal?
    ensures s.p.want >= 1
    ensures StepPRead(c, s, n).Some? && |s.p.acc| + n == s.p.want ==>
      StepPRead(c, s, n).value.d2p == NextFrame(JobsOf(c), s.d)
  {
    ReachableInv(c, s);
    if StepPRead(c, s, n).Some? && |s.p.acc| + n == s.p.want {
      FinalReadLeaves(c, JobsOf(c), s, n);
    }
  }

  /** Whenever prefill starts on a prompt it holds window credits, decode has window + 1
      receives posted, and no byte, write or completion of an earlier prompt is left. */
  lemma {:induction false} PromptStartsClean(c: Config, s: State, n: nat)
    requires ValidConfig(c) && Reachable(c, s) && s.p.pc.PPrompt? && |s.p.acc| + n == s.p.want
    ensures StepPRead(c, s, n).Some? ==>
      var s' := StepPRead(c, s, n).value;
      && s'.p.pc.PTop? && s'.p.credits == c.window && s'.p.i == s'.p.creditsReceived == 0
      && s'.posted == c.window + 1
      && s'.d2p == [] && s'.wire == [] && s'.cq == []
      && s'.p.served < |c.prompts|
      && s'.p.numChunks == CeilDiv(|Pack(c.model(c.prompts[s'.p.served]))|, c.chunkSize)
  {
    ReachableInv(c, s);
    if StepPRead(c, s, n).Some? {
      PromptReadIsPrompt(c, JobsOf(c), s, n);
    }
  }

  // ------------------------------------------------------------ receives and queues

  /** At every data write and at the sentinel, decode has a posted receive for it beyond those
      the writes still on the wire will take; a data write leaves one to spare. */
  lemma {:induction false} ReceivePostedAtWrite(c: Config, s: State)
    requires ValidConfig(c) && Reachable(c, s)
    ensures StepPWriteChunk(c, s).Some? ==> s.posted >= |s.wire| + 2
    ensures StepPWriteSentinel(s).Some? ==> s.posted >= |s.wire| + 1
  {
    ReachableInv(c, s);
    ReceivesCover(c, JobsOf(c), s);
  }

  /** At all times decode has at most window + 1 receives posted and as many completions
      queued, so a receive queue and completion queue of that depth never overflow. */
  lemma {:induction false} QueuesBounded(c: Config, s: State)
    requires ValidConfig(c) && Reachable(c, s)
    ensures s.posted + |s.cq| <= c.window + 1
    ensures |s.wire| <= s.posted
  {
    ReachableInv(c, s);
    ReceivesCover(c, JobsOf(c), s);
  }

  lemma {:induction false} ReceivesCover(c: Config, g: Jobs, s: State)
    requires Inv(c, g, s)
    ensures s.posted + |s.cq| <= c.window + 1
    ensures s.posted >= |s.wire|
    ensures s.p.pc.PWrite? ==> s.posted >= |s.wire| + 2
    ensures s.p.pc.PTop? ==> s.posted >= |s.wire| + 1
  {
  }
}
