/** What every reachable state of the KVCache transfer satisfies. */
module KvInvariant {
  import opened Arithmetic
  import opened Wrappers
  import opened Wire
  import opened KvPacking
  import opened KvTransfer

  /** What one prompt makes prefill transfer: the packed cache, its manifest, the manifest's
      JSON text, and the RDMA writes in order, the sentinel last. */
  datatype Job = Job(prompt: seq<Byte>, packed: seq<Byte>, meta: Meta, json: seq<Byte>, writes: seq<Write>)

  type Jobs = seq<Job>

  function Chunks(j: Job): nat { j.meta.numChunks }

  /** How many bytes the first m writes have brought in place. */
  function Landed(j: Job, m: nat): nat {
    if m < Chunks(j) && m < |j.writes| then j.writes[m].offset else |j.packed|
  }

  /** Write i of a job covers exactly the bytes from where write i begins to where write i + 1
      does, and its immediate is not the sentinel's. */
  predicate Covers(j: Job, i: nat)
    requires i < |j.writes|
  {
    && j.writes[i].offset == Landed(j, i)
    && j.writes[i].offset + j.writes[i].len == Landed(j, i + 1) <= |j.packed|
    && j.writes[i].len >= 0
    && j.writes[i].imm != SENTINEL
  }

  /** The premises of a fault-free session: a window of at least one, prompts that are not
      empty (an empty prompt is the shutdown signal), caches that fit the buffer, and a JSON
      codec that round-trips the manifests of this session. */
  ghost predicate Plan(c: Config, g: Jobs) {
    && c.window >= 1 && c.chunkSize >= 1 && c.bufSize >= 4
    && |g| == |c.prompts|
    && forall k :: 0 <= k < |g| ==> JobFits(c, g[k]) && g[k].prompt == c.prompts[k]
  }

  ghost predicate JobFits(c: Config, j: Job) {
    && 1 <= |j.prompt| < U32
    && |j.packed| == j.meta.totalBytes <= c.bufSize
    && 1 <= |j.json| < U32 && c.fromJson(j.json) == j.meta
    && |j.writes| == Chunks(j) + 1 && j.writes[Chunks(j)] == SENTINEL_WRITE && Landed(j, 0) == 0
    && forall i :: 0 <= i < Chunks(j) ==> Covers(j, i)
  }

  function At(g: Jobs, k: nat): Job {
    if k < |g| then g[k] else Job([], [], Meta(0, 0, []), [], [])
  }

  // ------------------------------------------------------ reading off a joint state

  predicate InLoop(pc: PrefillPc) { pc.PTop? || pc.PDrain? || pc.PWrite? }

  predicate InTransfer(pc: PrefillPc) { InLoop(pc) || pc.PFinal? }

  predicate Receiving(pc: DecodePc) { pc.DPoll? || pc.DRepost? || pc.DCredit? }

  predicate Received(pc: DecodePc) { pc.DDone? || pc.DRepostSentinel? || pc.DCopy? }

  predicate Waiting(pc: DecodePc) { pc.DSendPrompt? || pc.DManifestHeader? || pc.DStopped? }

  /** Writes prefill has posted for the prompt in transfer. */
  function Sent(p: Prefill): nat { if p.pc.PFinal? then p.i + 1 else p.i }

  /** Completions of those writes decode has polled. */
  ghost function Polled(g: Jobs, s: State): nat {
    if s.d.k > s.p.served || Received(s.d.pc) then Chunks(At(g, s.p.served)) + 1
    else if Receiving(s.d.pc) then s.d.chunksReceived
    else 0
  }

  /** Credit bytes decode has sent for it. */
  ghost function CreditsSent(g: Jobs, s: State): int {
    if s.d.k > s.p.served || Received(s.d.pc) then Chunks(At(g, s.p.served))
    else if s.d.pc.DPoll? then s.d.chunksReceived
    else if Receiving(s.d.pc) then s.d.chunksReceived - 1
    else 0
  }

  /** 1 while decode holds a polled completion whose receive it has not posted again. */
  function Held(d: Decode): nat {
    if d.pc.DRepost? || d.pc.DDone? || d.pc.DRepostSentinel? then 1 else 0
  }

  ghost predicate DoneSent(s: State) {
    s.d.k > s.p.served || s.d.pc.DRepostSentinel? || s.d.pc.DCopy?
  }

  function Credits(n: nat): (r: seq<Octet>)
    ensures |r| == n
  {
    seq(n, _ => Octet(1, Credit))
  }

  /** What decode has sent of a prompt prefill has not started on. */
  ghost function NextFrame(g: Jobs, d: Decode): seq<Octet> {
    if d.pc.DManifestHeader? then PromptFrame(At(g, d.k).prompt)
    else if d.pc.DStopped? then Tag(PromptHeader, BigEndian32(0))
    else []
  }

  // --------------------------------------------------------------------- invariant

  ghost predicate Control(g: Jobs, s: State) {
    var p, d := s.p, s.d;
    && d.k <= |g| && p.served <= |g|
    && (d.pc.DStopped? ==> d.k == |g|)
    && (d.pc.DManifestHeader? || d.pc.DManifestBody? || Receiving(d.pc) || Received(d.pc) ==> d.k < |g|)
    && (InTransfer(p.pc) || p.pc.PPrompt? ==> p.served < |g|)
    && match p.pc
       case PReady => p.served == d.k == 0 && (d.pc.DPrePost? || d.pc.DReady? || Waiting(d.pc))
       case PHeader => || (d.k == p.served && Waiting(d.pc))
                       || (d.k + 1 == p.served && (d.pc.DRepostSentinel? || d.pc.DCopy?))
       case PPrompt => d.k == p.served && d.pc.DManifestHeader?
       case PFinal => || (d.k == p.served
                          && (d.pc.DManifestHeader? || d.pc.DManifestBody? || Receiving(d.pc) || Received(d.pc)))
                      || (d.k == p.served + 1 && Waiting(d.pc))
       case PStopped => d.k == p.served == |g| && d.pc.DStopped?
       case _ => d.k == p.served && (d.pc.DManifestHeader? || d.pc.DManifestBody? || Receiving(d.pc))
  }

  /** Prefill's own variables: credits is window plus credits received minus chunks written. */
  ghost predicate PrefillVars(c: Config, g: Jobs, p: Prefill)
  {
    && |p.host| == c.bufSize
    && (p.pc.PReady? ==> p.acc == [] && p.want == 1)
    && (p.pc.PHeader? ==> |p.acc| < p.want == 4)
    && (p.pc.PPrompt? ==> |p.acc| < p.want == |At(g, p.served).prompt|)
    && (p.pc.PFinal? || p.pc.PPrompt? || p.pc.PHeader? || p.pc.PReady? || p.acc == [])
    && (InTransfer(p.pc) ==>
        && p.numChunks == Chunks(At(g, p.served))
        && p.packedBytes == |At(g, p.served).packed| <= c.bufSize
        && p.host[..p.packedBytes] == At(g, p.served).packed
        && p.i <= p.numChunks && p.creditsReceived <= p.i
        && p.credits == c.window + p.creditsReceived - p.i >= 0)
    && (p.pc.PDrain? || p.pc.PWrite? ==> p.credits >= 1 && p.i < p.numChunks)
    && (p.pc.PFinal? ==> p.i == p.numChunks && |p.acc| < p.want == p.numChunks - p.creditsReceived + 1)
  }

  ghost predicate DecodeVars(c: Config, g: Jobs, d: Decode)
  {
    && (d.pc.DPrePost? ==> d.turns < c.window + 1)
    && (d.pc.DManifestHeader? ==> |d.acc| < d.want == 4)
    && (d.pc.DManifestBody? ==> |d.acc| < d.want == |At(g, d.k).json|)
    && (d.pc.DManifestHeader? || d.pc.DManifestBody? || d.acc == [])
    && ((Receiving(d.pc) || Received(d.pc)) ==> d.meta == At(g, d.k).meta)
    && (Receiving(d.pc) ==> d.turns == d.chunksReceived <= d.meta.numChunks)
    && (d.pc.DRepost? || d.pc.DCredit? ==> d.chunksReceived >= 1)
    && |d.outputs| == d.k <= |g|
    && forall j :: 0 <= j < d.k ==> d.outputs[j] == Output(g[j].packed, g[j].meta.manifest)
  }

  /** The bytes decode has sent and prefill has not acted on, each in its role. */
  ghost function ToPrefill(c: Config, g: Jobs, s: State): seq<Octet> {
    match s.p.pc
    case PReady => (if s.d.pc.DPrePost? || s.d.pc.DReady? then [] else Tag(ReadySignal, [1])) + NextFrame(g, s.d)
    case PHeader => NextFrame(g, s.d)
    case PPrompt => Tag(PromptText, At(g, s.p.served).prompt)
    case PFinal => if DoneSent(s) then Credits(Owed(g, s)) + Tag(DoneSignal, [1]) + NextFrame(g, s.d)
                   else Credits(Owed(g, s))
    case PStopped => []
    case _ => Credits(Owed(g, s))
  }

  /** Credit bytes in transit. */
  ghost function Owed(g: Jobs, s: State): nat {
    var n := CreditsSent(g, s) - s.p.creditsReceived;
    if n < 0 then 0 else n
  }

  ghost function ToDecode(c: Config, g: Jobs, s: State): seq<Octet> {
    if !InTransfer(s.p.pc) || s.d.k != s.p.served then []
    else if s.d.pc.DManifestHeader? then ManifestFrame(At(g, s.d.k).json)
    else if s.d.pc.DManifestBody? then Tag(ManifestText, At(g, s.d.k).json)
    else []
  }

  ghost predicate Streams(c: Config, g: Jobs, s: State) {
    && s.p.acc + s.d2p == ToPrefill(c, g, s)
    && s.d.acc + s.p2d == ToDecode(c, g, s)
    && (InTransfer(s.p.pc) ==> s.p.creditsReceived <= CreditsSent(g, s))
  }

  /** In order: decode has polled writes [0, Polled), cq holds the next |cq| of them, wire the
      rest of what prefill posted. */
  ghost predicate Fabric(c: Config, g: Jobs, s: State) {
    && (!InTransfer(s.p.pc) ==> s.wire == [] && s.cq == [])
    && (InTransfer(s.p.pc) ==>
        var k := s.p.served; var base := Polled(g, s);
        && base + |s.cq| + |s.wire| == Sent(s.p) <= |At(g, k).writes|
        && Carries(At(g, k).writes, base, s.cq, s.wire))
  }

  /** From number base on, cq holds the immediates of the next writes and wire the ones after. */
  ghost predicate Carries(writes: seq<Write>, base: nat, cq: seq<nat>, wire: seq<Write>)
    requires base + |cq| + |wire| <= |writes|
  {
    && (forall j :: 0 <= j < |cq| ==> cq[j] == writes[base + j].imm)
    && (forall j :: 0 <= j < |wire| ==> wire[j] == writes[base + |cq| + j])
  }

  /** Polling takes the oldest completion. */
  lemma {:induction false} CarriesPolled(writes: seq<Write>, base: nat, cq: seq<nat>, wire: seq<Write>)
    requires base + |cq| + |wire| <= |writes| && Carries(writes, base, cq, wire) && cq != []
    ensures cq[0] == writes[base].imm
    ensures Carries(writes, base + 1, cq[1..], wire)
  {
    assert cq[0] == writes[base + 0].imm;
    forall j | 0 <= j < |cq[1..]| ensures cq[1..][j] == writes[base + 1 + j].imm {
      assert cq[1..][j] == cq[j + 1];
    }
  }

  /** Delivering the oldest write moves its immediate to the completion queue. */
  lemma {:induction false} CarriesDelivered(writes: seq<Write>, base: nat, cq: seq<nat>, wire: seq<Write>)
    requires base + |cq| + |wire| <= |writes| && Carries(writes, base, cq, wire) && wire != []
    ensures wire[0] == writes[base + |cq|]
    ensures Carries(writes, base, cq + [wire[0].imm], wire[1..])
  {
    assert wire[0] == writes[base + |cq| + 0];
    forall j | 0 <= j < |wire[1..]| ensures wire[1..][j] == writes[base + |cq + [wire[0].imm]| + j] {
      assert wire[1..][j] == wire[j + 1];
    }
  }

  /** Every receive is posted, consumed by a completion in cq, or held: window + 1 in all. */
  ghost predicate Receives(c: Config, s: State) {
    s.posted + |s.cq| + Held(s.d) == if s.d.pc.DPrePost? then s.d.turns else c.window + 1
  }

  /** The destination buffer: while prompt k is in transfer the landed part equals the source,
      and from the sentinel to the copy the whole range does. */
  ghost predicate Memory(c: Config, g: Jobs, s: State) {
    && |s.mem| == c.bufSize
    && (InTransfer(s.p.pc) && s.d.k == s.p.served ==>
        Agrees(s.mem, At(g, s.d.k).packed, Landed(At(g, s.d.k), Polled(g, s) + |s.cq|)))
    && (Received(s.d.pc) ==> At(g, s.d.k).packed <= s.mem)
  }

  ghost predicate Agrees(mem: seq<Byte>, packed: seq<Byte>, m: nat) {
    m <= |mem| && m <= |packed| && mem[..m] == packed[..m]
  }

  ghost predicate Local(c: Config, g: Jobs, s: State) {
    && Plan(c, g) && Control(g, s)
    && PrefillVars(c, g, s.p) && DecodeVars(c, g, s.d) && Receives(c, s)
  }

  ghost predicate Inv(c: Config, g: Jobs, s: State) {
    Local(c, g, s) && Streams(c, g, s) && Fabric(c, g, s) && Memory(c, g, s)
  }

  lemma {:induction false} InitEstablishes(c: Config, g: Jobs, host: seq<Byte>, mem: seq<Byte>)
    requires Plan(c, g) && |host| == |mem| == c.bufSize
    ensures Inv(c, g, Init(c, host, mem))
  {
  }

  // ------------------------------------------------------------- small facts

  lemma {:induction false} CreditsSplit(m: nat, n: nat)
    ensures Credits(m) + Credits(n) == Credits(m + n)
    ensures Tag(Credit, [1]) == Credits(1)
  {
  }

  lemma {:induction false} ValuesOfTag(role: Role, bytes: seq<Byte>)
    ensures Values(Tag(role, bytes)) == bytes
  {
  }

  /** Moving n bytes from the stream to the accumulator leaves the pending bytes as they were. */
  lemma {:induction false} TakeKeepsPending(acc: seq<Octet>, stream: seq<Octet>, n: nat)
    requires n <= |stream|
    ensures (acc + stream[..n]) + stream[n..] == acc + stream
  {
    assert stream == stream[..n] + stream[n..];
  }

  /** A read that ends at the end of a frame's first part holds exactly that part. */
  lemma {:induction false} TakeExactly(acc: seq<Octet>, stream: seq<Octet>, n: nat, a: seq<Octet>, b: seq<Octet>)
    requires n <= |stream| && acc + stream == a + b && |acc| + n == |a|
    ensures acc + stream[..n] == a && stream[n..] == b
  {
    TakeKeepsPending(acc, stream, n);
    assert (acc + stream)[..|a|] == acc + stream[..n];
    assert (a + b)[..|a|] == a;
    assert (acc + stream)[|a|..] == stream[n..];
    assert (a + b)[|a|..] == b;
  }

  lemma {:induction false} DropCredits(m: nat, n: nat)
    requires n <= m
    ensures Credits(m)[n..] == Credits(m - n)
  {
  }

  // ---------------------------------------------------------- decode's actions

  lemma {:induction false} PostInitialKeeps(c: Config, g: Jobs, s: State)
    requires Inv(c, g, s) && StepDPostInitial(c, s).Some?
    ensures Inv(c, g, StepDPostInitial(c, s).value)
  {
  }

  lemma {:induction false} SendReadyKeeps(c: Config, g: Jobs, s: State)
    requires Inv(c, g, s) && StepDSendReady(s).Some?
    ensures Inv(c, g, StepDSendReady(s).value)
  {
  }

  lemma {:induction false} PromptKeeps(c: Config, g: Jobs, s: State)
    requires Inv(c, g, s) && StepDPrompt(c, s).Some?
    ensures Inv(c, g, StepDPrompt(c, s).value)
  {
    var s' := StepDPrompt(c, s).value;
    assert s'.d2p == s.d2p + NextFrame(g, s'.d);
    PromptStreams(c, g, s, s'.d);
  }

  lemma {:induction false} PromptStreams(c: Config, g: Jobs, s: State, d: Decode)
    requires Inv(c, g, s) && s.d.pc.DSendPrompt? && d.k == s.d.k && d.acc == []
    requires if s.d.k < |g| then d.pc.DManifestHeader? else d.pc.DStopped?
    ensures Streams(c, g, s.(d := d, d2p := s.d2p + NextFrame(g, d)))
  {
    var next := NextFrame(g, d);
    var sent := SentBefore(c, g, s);
    PendingBeforePrompt(c, g, s, d);
    Append(s.p.acc, s.d2p, sent, [], next);
  }

  lemma {:induction false} PendingBeforePrompt(c: Config, g: Jobs, s: State, d: Decode)
    requires Control(g, s) && s.d.pc.DSendPrompt? && d.k == s.d.k
    requires d.pc.DManifestHeader? || d.pc.DStopped?
    ensures ToPrefill(c, g, s) == SentBefore(c, g, s) + []
    ensures forall t :: ToPrefill(c, g, s.(d := d, d2p := t)) == SentBefore(c, g, s) + (([] + NextFrame(g, d)))
  {
    var sent := SentBefore(c, g, s);
    assert sent + [] == sent && [] + NextFrame(g, d) == NextFrame(g, d);
  }

  /** What prefill has not yet acted on when decode is about to send a prompt. */
  ghost function SentBefore(c: Config, g: Jobs, s: State): seq<Octet> {
    match s.p.pc
    case PReady => Tag(ReadySignal, [1])
    case PFinal => Credits(Owed(g, s)) + Tag(DoneSignal, [1])
    case _ => []
  }

  lemma {:induction false} Append(acc: seq<Octet>, stream: seq<Octet>, a: seq<Octet>, b: seq<Octet>, x: seq<Octet>)
    requires acc + stream == a + b
    ensures acc + (stream + x) == a + (b + x)
    ensures [] + x == x
  {
    assert acc + (stream + x) == (acc + stream) + x;
  }

  lemma {:induction false} PollKeeps(c: Config, g: Jobs, s: State)
    requires Inv(c, g, s) && StepDPoll(s).Some?
    ensures Inv(c, g, StepDPoll(s).value)
  {
    PollSees(c, g, s);
    PollLocal(c, g, s);
    PollStreams(c, g, s);
    PollFabric(c, g, s);
  }

  /** Decode sees the sentinel exactly when it has polled all the chunks. */
  lemma {:induction false} PollSees(c: Config, g: Jobs, s: State)
    requires Inv(c, g, s) && s.d.pc.DPoll? && |s.cq| > 0
    ensures InTransfer(s.p.pc) && s.d.k == s.p.served < |g|
    ensures s.cq[0] == SENTINEL <==> s.d.chunksReceived == Chunks(g[s.d.k])
    ensures s.cq[0] == SENTINEL ==> |s.cq| == 1 && s.wire == []
  {
    var job := g[s.d.k];
    var base := Polled(g, s);
    CarriesPolled(job.writes, base, s.cq, s.wire);
    assert base < Chunks(job) ==> Covers(job, base);
  }

  lemma {:induction false} PollLocal(c: Config, g: Jobs, s: State)
    requires Inv(c, g, s) && StepDPoll(s).Some?
    requires s.d.k == s.p.served < |g| && (s.cq[0] == SENTINEL <==> s.d.chunksReceived == Chunks(g[s.d.k]))
    ensures Local(c, g, StepDPoll(s).value)
  {
  }

  lemma {:induction false} PollFabric(c: Config, g: Jobs, s: State)
    requires Inv(c, g, s) && StepDPoll(s).Some?
    requires s.d.k == s.p.served < |g| && InTransfer(s.p.pc)
    requires s.cq[0] == SENTINEL <==> s.d.chunksReceived == Chunks(g[s.d.k])
    requires s.cq[0] == SENTINEL ==> |s.cq| == 1 && s.wire == []
    ensures Fabric(c, g, StepDPoll(s).value) && Memory(c, g, StepDPoll(s).value)
  {
    CarriesPolled(At(g, s.p.served).writes, Polled(g, s), s.cq, s.wire);
    assert Polled(g, StepDPoll(s).value) == Polled(g, s) + 1;
  }

  lemma {:induction false} PollStreams(c: Config, g: Jobs, s: State)
    requires Inv(c, g, s) && StepDPoll(s).Some? && s.d.k == s.p.served < |g| && InTransfer(s.p.pc)
    requires s.cq[0] == SENTINEL <==> s.d.chunksReceived == Chunks(g[s.d.k])
    ensures Streams(c, g, StepDPoll(s).value)
  {
    var s' := StepDPoll(s).value;
    assert CreditsSent(g, s') == CreditsSent(g, s) && DoneSent(s') == DoneSent(s);
    assert ToPrefill(c, g, s') == ToPrefill(c, g, s) && ToDecode(c, g, s') == ToDecode(c, g, s);
  }

  lemma {:induction false} RepostKeeps(c: Config, g: Jobs, s: State)
    requires Inv(c, g, s) && StepDRepost(c, s).Some?
    ensures Inv(c, g, StepDRepost(c, s).value)
  {
    RepostLocal(c, g, s);
    RepostStreams(c, g, s);
    RepostFabric(c, g, s);
    RepostMemory(c, g, s);
  }

  lemma {:induction false} RepostLocal(c: Config, g: Jobs, s: State)
    requires Local(c, g, s) && s.d.pc.DRepost?
    ensures Local(c, g, s.(posted := s.posted + 1, d := s.d.(pc := DCredit)))
  {
  }

  lemma {:induction false} RepostFabric(c: Config, g: Jobs, s: State)
    requires Inv(c, g, s) && s.d.pc.DRepost?
    ensures Fabric(c, g, s.(posted := s.posted + 1, d := s.d.(pc := DCredit)))
  {
    assert Polled(g, s.(posted := s.posted + 1, d := s.d.(pc := DCredit))) == Polled(g, s);
  }

  lemma {:induction false} RepostMemory(c: Config, g: Jobs, s: State)
    requires Inv(c, g, s) && s.d.pc.DRepost?
    ensures Memory(c, g, s.(posted := s.posted + 1, d := s.d.(pc := DCredit)))
  {
    assert Polled(g, s.(posted := s.posted + 1, d := s.d.(pc := DCredit))) == Polled(g, s);
  }

  lemma {:induction false} RepostStreams(c: Config, g: Jobs, s: State)
    requires Inv(c, g, s) && s.d.pc.DRepost?
    ensures Streams(c, g, s.(posted := s.posted + 1, d := s.d.(pc := DCredit)))
  {
    RepostViews(c, g, s);
  }

  /** Reposting a receive changes nothing that the streams depend on. */
  lemma {:induction false} RepostViews(c: Config, g: Jobs, s: State)
    requires Local(c, g, s) && s.d.pc.DRepost?
    ensures var s' := s.(posted := s.posted + 1, d := s.d.(pc := DCredit));
      && ToPrefill(c, g, s') == ToPrefill(c, g, s) && ToDecode(c, g, s') == ToDecode(c, g, s)
      && CreditsSent(g, s') == CreditsSent(g, s)
  {
  }

  lemma {:induction false} SendCreditKeeps(c: Config, g: Jobs, s: State)
    requires Inv(c, g, s) && StepDSendCredit(s).Some?
    ensures Inv(c, g, StepDSendCredit(s).value)
  {
    SendCreditLocal(c, g, s);
    SendCreditStreams(c, g, s);
    SendCreditFabric(c, g, s);
  }

  lemma {:induction false} SendCreditLocal(c: Config, g: Jobs, s: State)
    requires Inv(c, g, s) && s.d.pc.DCredit?
    ensures Local(c, g, s.(d2p := s.d2p + Tag(Credit, [1]), d := s.d.(pc := DPoll)))
  {
  }

  lemma {:induction false} SendCreditFabric(c: Config, g: Jobs, s: State)
    requires Inv(c, g, s) && s.d.pc.DCredit?
    ensures var s' := s.(d2p := s.d2p + Tag(Credit, [1]), d := s.d.(pc := DPoll)); Fabric(c, g, s') && Memory(c, g, s')
  {
    var s' := s.(d2p := s.d2p + Tag(Credit, [1]), d := s.d.(pc := DPoll));
    assert Polled(g, s') == Polled(g, s);
  }

  lemma {:induction false} SendCreditStreams(c: Config, g: Jobs, s: State)
    requires Inv(c, g, s) && s.d.pc.DCredit?
    ensures Streams(c, g, s.(d2p := s.d2p + Tag(Credit, [1]), d := s.d.(pc := DPoll)))
  {
    CreditsSplit(Owed(g, s), 1);
    assert Credits(Owed(g, s)) + [] == Credits(Owed(g, s));
    Append(s.p.acc, s.d2p, Credits(Owed(g, s)), [], Tag(Credit, [1]));
  }

  lemma {:induction false} SendDoneKeeps(c: Config, g: Jobs, s: State)
    requires Inv(c, g, s) && StepDSendDone(s).Some?
    ensures Inv(c, g, StepDSendDone(s).value)
  {
    var done := Tag(DoneSignal, [1]);
    assert s.p.acc + (s.d2p + done) == (s.p.acc + s.d2p) + done;
  }

  lemma {:induction false} RepostLastKeeps(c: Config, g: Jobs, s: State)
    requires Inv(c, g, s) && StepDRepostLast(c, s).Some?
    ensures Inv(c, g, StepDRepostLast(c, s).value)
  {
  }

  lemma {:induction false} CopyOutKeeps(c: Config, g: Jobs, s: State)
    requires Inv(c, g, s) && StepDCopyOut(s).Some?
    ensures Inv(c, g, StepDCopyOut(s).value)
  {
    CopyOutLocal(c, g, s);
    CopyOutStreams(c, g, s);
    CopyOutFabric(c, g, s);
  }

  lemma {:induction false} CopyOutLocal(c: Config, g: Jobs, s: State)
    requires Inv(c, g, s) && StepDCopyOut(s).Some?
    ensures Local(c, g, StepDCopyOut(s).value)
  {
  }

  lemma {:induction false} CopyOutStreams(c: Config, g: Jobs, s: State)
    requires Inv(c, g, s) && StepDCopyOut(s).Some?
    ensures Streams(c, g, StepDCopyOut(s).value)
  {
  }

  lemma {:induction false} CopyOutFabric(c: Config, g: Jobs, s: State)
    requires Inv(c, g, s) && StepDCopyOut(s).Some?
    ensures Fabric(c, g, StepDCopyOut(s).value) && Memory(c, g, StepDCopyOut(s).value)
  {
  }

  lemma {:induction false} DecodeReadKeeps(c: Config, g: Jobs, s: State, n: nat)
    requires Inv(c, g, s) && StepDRead(c, s, n).Some?
    ensures Inv(c, g, StepDRead(c, s, n).value)
  {
    if |s.d.acc| + n < s.d.want {
      DecodePartialReadKeeps(c, g, s, n);
    } else if s.d.pc.DManifestHeader? {
      ManifestHeaderKeeps(c, g, s, n);
    } else {
      ManifestBodyKeeps(c, g, s, n);
    }
  }

  lemma {:induction false} DecodePartialReadKeeps(c: Config, g: Jobs, s: State, n: nat)
    requires Inv(c, g, s) && StepDRead(c, s, n).Some? && |s.d.acc| + n < s.d.want
    ensures Inv(c, g, StepDRead(c, s, n).value)
  {
    TakeKeepsPending(s.d.acc, s.p2d, n);
    AccumulateLocal(c, g, s, s.d.acc + s.p2d[..n], s.p2d[n..]);
    AccumulateStreams(c, g, s, s.d.acc + s.p2d[..n], s.p2d[n..]);
    AccumulateFabric(c, g, s, s.d.acc + s.p2d[..n], s.p2d[n..]);
  }

  /** Moving bytes from the stream to decode's accumulator changes nothing else. */
  lemma {:induction false} AccumulateLocal(c: Config, g: Jobs, s: State, acc: seq<Octet>, rest: seq<Octet>)
    requires Local(c, g, s) && (s.d.pc.DManifestHeader? || s.d.pc.DManifestBody?) && |acc| < s.d.want
    ensures Local(c, g, s.(p2d := rest, d := s.d.(acc := acc)))
  {
  }

  lemma {:induction false} AccumulateStreams(c: Config, g: Jobs, s: State, acc: seq<Octet>, rest: seq<Octet>)
    requires Streams(c, g, s) && acc + rest == s.d.acc + s.p2d
    ensures Streams(c, g, s.(p2d := rest, d := s.d.(acc := acc)))
  {
    SameViews(c, g, s, acc, rest);
  }

  lemma {:induction false} AccumulateFabric(c: Config, g: Jobs, s: State, acc: seq<Octet>, rest: seq<Octet>)
    requires Fabric(c, g, s) && Memory(c, g, s)
    ensures var s' := s.(p2d := rest, d := s.d.(acc := acc)); Fabric(c, g, s') && Memory(c, g, s')
  {
    assert Polled(g, s.(p2d := rest, d := s.d.(acc := acc))) == Polled(g, s);
  }

  lemma {:induction false} SameViews(c: Config, g: Jobs, s: State, acc: seq<Octet>, rest: seq<Octet>)
    ensures var s' := s.(p2d := rest, d := s.d.(acc := acc));
      && ToPrefill(c, g, s') == ToPrefill(c, g, s) && ToDecode(c, g, s') == ToDecode(c, g, s)
      && CreditsSent(g, s') == CreditsSent(g, s)
  {
  }

  lemma {:induction false} ManifestHeaderIsLength(c: Config, g: Jobs, s: State, n: nat)
    requires Inv(c, g, s) && s.d.pc.DManifestHeader? && n <= |s.p2d| && 0 < n && |s.d.acc| + n == 4
    ensures InTransfer(s.p.pc) && s.d.k == s.p.served < |g|
    ensures FromBigEndian32(Values(s.d.acc + s.p2d[..n])) == |g[s.d.k].json| >= 1
    ensures s.p2d[n..] == Tag(ManifestText, g[s.d.k].json)
  {
    var json := At(g, s.d.k).json;
    assert s.p2d != [];
    TakeExactly(s.d.acc, s.p2d, n, Tag(ManifestHeader, BigEndian32(|json|)), Tag(ManifestText, json));
    ValuesOfTag(ManifestHeader, BigEndian32(|json|));
    BigEndianRoundTrip(|json|);
  }

  lemma {:induction false} ManifestHeaderKeeps(c: Config, g: Jobs, s: State, n: nat)
    requires Inv(c, g, s) && StepDRead(c, s, n).Some? && s.d.pc.DManifestHeader? && |s.d.acc| + n == 4
    ensures Inv(c, g, StepDRead(c, s, n).value)
  {
    ManifestHeaderIsLength(c, g, s, n);
  }

  lemma {:induction false} ManifestBodyKeeps(c: Config, g: Jobs, s: State, n: nat)
    requires Inv(c, g, s) && StepDRead(c, s, n).Some? && s.d.pc.DManifestBody? && |s.d.acc| + n == s.d.want
    ensures Inv(c, g, StepDRead(c, s, n).value)
  {
    var json := g[s.d.k].json;
    TakeExactly(s.d.acc, s.p2d, n, Tag(ManifestText, json), []);
    ValuesOfTag(ManifestText, json);
  }

  // ---------------------------------------------------------- prefill's actions

  lemma {:induction false} BlockKeeps(c: Config, g: Jobs, s: State)
    requires Inv(c, g, s) && StepPBlock(s).Some?
    ensures Inv(c, g, StepPBlock(s).value)
  {
    BlockLocal(c, g, s);
    BlockStreams(c, g, s);
    BlockFabric(c, g, s);
  }

  lemma {:induction false} BlockFabric(c: Config, g: Jobs, s: State)
    requires Inv(c, g, s) && StepPBlock(s).Some?
    ensures Fabric(c, g, StepPBlock(s).value) && Memory(c, g, StepPBlock(s).value)
  {
  }

  lemma {:induction false} BlockStreams(c: Config, g: Jobs, s: State)
    requires Inv(c, g, s) && StepPBlock(s).Some?
    ensures Streams(c, g, StepPBlock(s).value)
  {
    assert s.d2p == [] + s.d2p == Credits(Owed(g, s));
    DropCredits(Owed(g, s), 1);
    assert [] + s.d2p[1..] == s.d2p[1..];
  }

  lemma {:induction false} BlockLocal(c: Config, g: Jobs, s: State)
    requires Inv(c, g, s) && StepPBlock(s).Some?
    ensures Local(c, g, StepPBlock(s).value)
  {
  }

  lemma {:induction false} DrainKeeps(c: Config, g: Jobs, s: State, n: nat)
    requires Inv(c, g, s) && StepPDrain(s, n).Some?
    ensures Inv(c, g, StepPDrain(s, n).value)
    ensures forall j :: 0 <= j < n ==> s.d2p[j].role.Credit?
  {
    DrainLocal(c, g, s, n);
    DrainStreams(c, g, s, n);
    DrainFabric(c, g, s, n);
  }

  lemma {:induction false} DrainFabric(c: Config, g: Jobs, s: State, n: nat)
    requires Inv(c, g, s) && StepPDrain(s, n).Some?
    ensures Fabric(c, g, StepPDrain(s, n).value) && Memory(c, g, StepPDrain(s, n).value)
  {
  }

  lemma {:induction false} DrainStreams(c: Config, g: Jobs, s: State, n: nat)
    requires Inv(c, g, s) && StepPDrain(s, n).Some?
    ensures Streams(c, g, StepPDrain(s, n).value)
    ensures forall j :: 0 <= j < n ==> s.d2p[j].role.Credit?
  {
    assert s.d2p == [] + s.d2p == Credits(Owed(g, s));
    DropCredits(Owed(g, s), n);
    assert [] + s.d2p[n..] == s.d2p[n..];
  }

  lemma {:induction false} DrainLocal(c: Config, g: Jobs, s: State, n: nat)
    requires Inv(c, g, s) && StepPDrain(s, n).Some?
    ensures Local(c, g, StepPDrain(s, n).value) && n <= Owed(g, s)
  {
  }

  /** The chunk prefill writes next is the one the job's schedule lists. */
  ghost predicate Scheduled(c: Config, j: Job) {
    forall i :: 0 <= i < Chunks(j) && i < |j.writes| ==> j.writes[i] == ChunkWrite(c, |j.packed|, i)
  }

  lemma {:induction false} WriteChunkKeeps(c: Config, g: Jobs, s: State)
    requires Inv(c, g, s) && StepPWriteChunk(c, s).Some?
    requires Scheduled(c, g[s.p.served])
    ensures Inv(c, g, StepPWriteChunk(c, s).value)
  {
    NextIsScheduled(c, g, s);
    WriteKeeps(c, g, s, ChunkWrite(c, s.p.packedBytes, s.p.i));
  }

  lemma {:induction false} NextIsScheduled(c: Config, g: Jobs, s: State)
    requires Control(g, s) && PrefillVars(c, g, s.p) && Plan(c, g) && s.p.pc.PWrite?
    requires Scheduled(c, g[s.p.served])
    ensures s.p.i < |g[s.p.served].writes|
    ensures ChunkWrite(c, s.p.packedBytes, s.p.i) == g[s.p.served].writes[s.p.i]
  {
  }

  lemma {:induction false} WriteKeeps(c: Config, g: Jobs, s: State, w: Write)
    requires Inv(c, g, s) && s.p.pc.PWrite? && w == g[s.p.served].writes[s.p.i]
    ensures Inv(c, g, Posting(s, w))
  {
    WriteLocal(c, g, s, w);
    WriteStreams(c, g, s, w);
    WriteFabric(c, g, s, w);
  }

  lemma {:induction false} WriteLocal(c: Config, g: Jobs, s: State, w: Write)
    requires Local(c, g, s) && s.p.pc.PWrite?
    ensures Local(c, g, Posting(s, w))
  {
  }

  lemma {:induction false} WriteStreams(c: Config, g: Jobs, s: State, w: Write)
    requires Inv(c, g, s) && s.p.pc.PWrite?
    ensures Streams(c, g, Posting(s, w))
  {
    var s' := Posting(s, w);
    assert ToPrefill(c, g, s') == ToPrefill(c, g, s) && ToDecode(c, g, s') == ToDecode(c, g, s);
  }

  lemma {:induction false} WriteFabric(c: Config, g: Jobs, s: State, w: Write)
    requires Inv(c, g, s) && s.p.pc.PWrite? && w == g[s.p.served].writes[s.p.i]
    ensures Fabric(c, g, Posting(s, w)) && Memory(c, g, Posting(s, w))
  {
  }

  lemma {:induction false} WriteSentinelKeeps(c: Config, g: Jobs, s: State)
    requires Inv(c, g, s) && StepPWriteSentinel(s).Some?
    ensures Inv(c, g, StepPWriteSentinel(s).value)
  {
    var s' := StepPWriteSentinel(s).value;
    assert s'.p.pc.PFinal?;
    WriteSentinelFabric(c, g, s);
    assert Credits(Owed(g, s)) + [] == Credits(Owed(g, s));
  }

  lemma {:induction false} WriteSentinelFabric(c: Config, g: Jobs, s: State)
    requires Inv(c, g, s) && s.p.pc.PTop? && s.p.i == s.p.numChunks
    ensures forall want ::
      Fabric(c, g, s.(wire := s.wire + [SENTINEL_WRITE], p := s.p.(pc := PFinal, acc := [], want := want)))
  {
  }

  lemma {:induction false} PartialReadKeeps(c: Config, g: Jobs, s: State, n: nat)
    requires Inv(c, g, s) && StepPRead(c, s, n).Some? && |s.p.acc| + n < s.p.want
    ensures Inv(c, g, StepPRead(c, s, n).value)
  {
    TakeKeepsPending(s.p.acc, s.d2p, n);
    SamePending(c, g, s, s.p.acc + s.d2p[..n], s.d2p[n..]);
  }

  /** Moving bytes from the stream to prefill's accumulator changes nothing else. */
  lemma {:induction false} SamePending(c: Config, g: Jobs, s: State, acc: seq<Octet>, rest: seq<Octet>)
    requires Inv(c, g, s) && Reading(s.p)
    requires acc + rest == s.p.acc + s.d2p && |acc| < s.p.want && (s.p.pc.PReady? ==> acc == [])
    ensures Inv(c, g, s.(d2p := rest, p := s.p.(acc := acc)))
  {
    SamePendingLocal(c, g, s, acc, rest);
    SamePendingStreams(c, g, s, acc, rest);
    SamePendingFabric(c, g, s, acc, rest);
  }

  lemma {:induction false} SamePendingLocal(c: Config, g: Jobs, s: State, acc: seq<Octet>, rest: seq<Octet>)
    requires Local(c, g, s) && Reading(s.p) && |acc| < s.p.want && (s.p.pc.PReady? ==> acc == [])
    ensures Local(c, g, s.(d2p := rest, p := s.p.(acc := acc)))
  {
  }

  lemma {:induction false} SamePendingStreams(c: Config, g: Jobs, s: State, acc: seq<Octet>, rest: seq<Octet>)
    requires Streams(c, g, s) && acc + rest == s.p.acc + s.d2p
    ensures Streams(c, g, s.(d2p := rest, p := s.p.(acc := acc)))
  {
    var s' := s.(d2p := rest, p := s.p.(acc := acc));
    assert ToPrefill(c, g, s') == ToPrefill(c, g, s) && ToDecode(c, g, s') == ToDecode(c, g, s);
  }

  lemma {:induction false} SamePendingFabric(c: Config, g: Jobs, s: State, acc: seq<Octet>, rest: seq<Octet>)
    requires Fabric(c, g, s) && Memory(c, g, s)
    ensures Fabric(c, g, s.(d2p := rest, p := s.p.(acc := acc))) && Memory(c, g, s.(d2p := rest, p := s.p.(acc := acc)))
  {
  }

  lemma {:induction false} ReadyReadKeeps(c: Config, g: Jobs, s: State, n: nat)
    requires Inv(c, g, s) && s.p.pc.PReady? && StepPRead(c, s, n).Some?
    ensures Inv(c, g, StepPRead(c, s, n).value)
  {
    TakeExactly([], s.d2p, 1, Tag(ReadySignal, [1]), NextFrame(g, s.d));
  }

  /** A finished header read holds the length of the next prompt, or zero for shutdown. */
  lemma {:induction false} HeaderReadIsLength(c: Config, g: Jobs, s: State, n: nat)
    requires Inv(c, g, s) && s.p.pc.PHeader? && n <= |s.d2p| && |s.p.acc| + n == 4
    ensures s.d.k == s.p.served && (s.d.pc.DManifestHeader? || s.d.pc.DStopped?)
    ensures var len := FromBigEndian32(Values(s.p.acc + s.d2p[..n]));
      if s.d.pc.DStopped? then len == 0 && s.d2p[n..] == []
      else len == |g[s.d.k].prompt| > 0 && s.d2p[n..] == Tag(PromptText, g[s.d.k].prompt)
  {
    var len := if s.d.pc.DManifestHeader? then |g[s.d.k].prompt| else 0;
    var text := if s.d.pc.DManifestHeader? then Tag(PromptText, g[s.d.k].prompt) else [];
    var header := Tag(PromptHeader, BigEndian32(len));
    assert NextFrame(g, s.d) != [];
    assert NextFrame(g, s.d) == header + text;
    TakeExactly(s.p.acc, s.d2p, n, header, text);
    ValuesOfTag(PromptHeader, BigEndian32(len));
    BigEndianRoundTrip(len);
  }

  lemma {:induction false} HeaderReadKeeps(c: Config, g: Jobs, s: State, n: nat)
    requires Inv(c, g, s) && s.p.pc.PHeader? && StepPRead(c, s, n).Some? && |s.p.acc| + n == 4
    ensures Inv(c, g, StepPRead(c, s, n).value)
  {
    HeaderReadIsLength(c, g, s, n);
    HeaderActs(c, g, s, s.d2p[n..]);
  }

  lemma {:induction false} HeaderActs(c: Config, g: Jobs, s: State, rest: seq<Octet>)
    requires Inv(c, g, s) && s.p.pc.PHeader? && s.d.k == s.p.served
    requires s.d.pc.DManifestHeader? || s.d.pc.DStopped?
    requires s.d.pc.DStopped? ==> rest == []
    requires s.d.pc.DManifestHeader? ==> rest == Tag(PromptText, g[s.d.k].prompt)
    ensures s.d.pc.DStopped? ==> Inv(c, g, s.(d2p := rest, p := s.p.(pc := PStopped, acc := [], want := 0)))
    ensures s.d.pc.DManifestHeader? ==>
      Inv(c, g, s.(d2p := rest, p := s.p.(pc := PPrompt, acc := [], want := |g[s.d.k].prompt|)))
  {
  }

  /** A finished prompt read hands prefill the prompt's text, whole. */
  lemma {:induction false} PromptReadIsPrompt(c: Config, g: Jobs, s: State, n: nat)
    requires Inv(c, g, s) && s.p.pc.PPrompt? && n <= |s.d2p| && |s.p.acc| + n == s.p.want
    ensures Values(s.p.acc + s.d2p[..n]) == g[s.p.served].prompt && s.d2p[n..] == []
  {
    TakeExactly(s.p.acc, s.d2p, n, Tag(PromptText, g[s.p.served].prompt), []);
    ValuesOfTag(PromptText, g[s.p.served].prompt);
  }

  ghost predicate Computed(c: Config, j: Job)
    requires c.chunkSize > 0
  {
    var layers := c.model(j.prompt);
    Pack(layers) == j.packed && MetaFor(c, layers) == j.meta && c.toJson(j.meta) == j.json
  }

  lemma {:induction false} ServeKeeps(c: Config, g: Jobs, s: State, rest: State, host: seq<Byte>)
    requires Inv(c, g, s) && s.p.pc.PPrompt? && rest == s.(d2p := [])
    requires var job := g[s.p.served]; |host| == c.bufSize && job.packed <= host
    ensures var job := g[s.p.served];
      Inv(c, g, rest.(p := s.p.(pc := PTop, acc := [], want := 0, host := host,
                  packedBytes := |job.packed|, numChunks := Chunks(job), i := 0,
                  credits := c.window, creditsReceived := 0),
                  p2d := s.p2d + ManifestFrame(job.json)))
  {
  }

  lemma {:induction false} PromptReadKeeps(c: Config, g: Jobs, s: State, n: nat)
    requires Inv(c, g, s) && s.p.pc.PPrompt? && StepPRead(c, s, n).Some? && |s.p.acc| + n == s.p.want
    requires Computed(c, g[s.p.served])
    ensures Inv(c, g, StepPRead(c, s, n).value)
  {
    PromptReadIsPrompt(c, g, s, n);
    var job := g[s.p.served];
    ServeKeeps(c, g, s, s.(d2p := s.d2p[n..]), job.packed + s.p.host[|job.packed|..]);
  }

  lemma {:induction false} FinalReadKeeps(c: Config, g: Jobs, s: State, n: nat)
    requires Inv(c, g, s) && s.p.pc.PFinal? && StepPRead(c, s, n).Some? && |s.p.acc| + n == s.p.want
    ensures Inv(c, g, StepPRead(c, s, n).value)
  {
    var owed := Credits(Owed(g, s));
    assert DoneSent(s);
    TakeExactly(s.p.acc, s.d2p, n, owed + Tag(DoneSignal, [1]), NextFrame(g, s.d));
  }

  /** What the completed final read leaves on the stream. */
  lemma {:induction false} FinalReadLeaves(c: Config, g: Jobs, s: State, n: nat)
    requires Inv(c, g, s) && s.p.pc.PFinal? && StepPRead(c, s, n).Some? && |s.p.acc| + n == s.p.want
    ensures s.d2p[n..] == NextFrame(g, s.d)
  {
    assert DoneSent(s);
    TakeExactly(s.p.acc, s.d2p, n, Credits(Owed(g, s)) + Tag(DoneSignal, [1]), NextFrame(g, s.d));
  }

  // ----------------------------------------------------------------- delivery

  lemma {:induction false} DeliverKeeps(c: Config, g: Jobs, s: State)
    requires Inv(c, g, s) && StepDeliver(s).Some?
    ensures Inv(c, g, StepDeliver(s).value)
  {
    DeliverLocal(c, g, s);
    DeliverStreams(c, g, s);
    DeliverFabric(c, g, s);
    DeliverMemory(c, g, s);
  }

  lemma {:induction false} DeliverLocal(c: Config, g: Jobs, s: State)
    requires Local(c, g, s) && StepDeliver(s).Some?
    ensures Local(c, g, StepDeliver(s).value)
  {
  }

  lemma {:induction false} DeliverStreams(c: Config, g: Jobs, s: State)
    requires Streams(c, g, s) && StepDeliver(s).Some?
    ensures Streams(c, g, StepDeliver(s).value)
  {
    var s' := StepDeliver(s).value;
    assert ToPrefill(c, g, s') == ToPrefill(c, g, s) && ToDecode(c, g, s') == ToDecode(c, g, s);
  }

  lemma {:induction false} DeliverFabric(c: Config, g: Jobs, s: State)
    requires Inv(c, g, s) && StepDeliver(s).Some?
    ensures Fabric(c, g, StepDeliver(s).value)
  {
    CarriesDelivered(At(g, s.p.served).writes, Polled(g, s), s.cq, s.wire);
    assert Polled(g, StepDeliver(s).value) == Polled(g, s);
  }

  lemma {:induction false} DeliverMemory(c: Config, g: Jobs, s: State)
    requires Inv(c, g, s) && StepDeliver(s).Some?
    ensures Memory(c, g, StepDeliver(s).value)
  {
    var s' := StepDeliver(s).value;
    var m := Polled(g, s) + |s.cq|;
    WireMeansReceiving(c, g, s);
    var job := At(g, s.d.k);
    CarriesDelivered(job.writes, Polled(g, s), s.cq, s.wire);
    WriteLands(c, job, m);
    Overlay(s.mem, s.p.host, job.packed, s.wire[0].offset, s.wire[0].offset + s.wire[0].len, Landed(job, m));
    assert Agrees(s'.mem, job.packed, Landed(job, m + 1));
    assert Polled(g, s') + |s'.cq| == m + 1;
  }

  /** With a write in flight decode is on this prompt and has not polled the sentinel. */
  lemma {:induction false} WireMeansReceiving(c: Config, g: Jobs, s: State)
    requires Local(c, g, s) && Fabric(c, g, s) && s.wire != []
    ensures InTransfer(s.p.pc) && s.d.k == s.p.served < |g| && !Received(s.d.pc)
  {
  }

  /** Write m starts inside what writes before it cover, and ends where it is covered up to; the
      sentinel rewrites what is there. */
  lemma {:induction false} WriteLands(c: Config, j: Job, m: nat)
    requires JobFits(c, j) && m < |j.writes|
    ensures var w := j.writes[m];
      && 0 <= w.offset <= Landed(j, m) <= |j.packed|
      && Landed(j, m) <= Landed(j, m + 1) <= |j.packed|
      && (if m < Chunks(j) then w.offset + w.len == Landed(j, m + 1) else Landed(j, m + 1) == Landed(j, m))
  {
    if m < Chunks(j) {
      assert Covers(j, m);
    }
  }

  /** Copying source bytes [lo, hi) over a buffer that agrees up to `upTo` extends the
      agreement to hi, and disturbs none of it. */
  lemma {:induction false} Overlay(mem: seq<Byte>, host: seq<Byte>, packed: seq<Byte>, lo: nat, hi: nat, upTo: nat)
    requires lo <= hi <= |mem| && hi <= |host| && lo <= upTo
    requires packed <= host && Agrees(mem, packed, upTo)
    ensures var mem' := mem[..lo] + host[lo..hi] + mem[hi..];
      && |mem'| == |mem| && Agrees(mem', packed, upTo)
      && (hi <= |packed| && upTo <= hi ==> Agrees(mem', packed, hi))
  {
    var mem' := mem[..lo] + host[lo..hi] + mem[hi..];
    forall j | 0 <= j < |packed| && (j < upTo || lo <= j < hi) && j < |mem| ensures mem'[j] == packed[j] {
      assert packed[j] == host[j];
      if j < upTo {
        assert mem[..upTo][j] == packed[..upTo][j];
      }
    }
  }
}
