/** The chunks of a prompt as decode sees them: which completions it polls, in which order. */
module KvChunks {
  import opened Arithmetic
  import opened Wrappers
  import opened Wire
  import opened KvPacking
  import opened KvTransfer
  import opened KvInvariant
  import opened KvSession

  /** Completion number i of a prompt of total bytes: while chunk i begins before the end, layer 0
      and chunk i (in 16 bits), and not the sentinel; after the last chunk, the sentinel. */
  predicate IsCompletion(c: Config, total: nat, i: nat, imm: nat) {
    if i * c.chunkSize < total then
      imm != 0xFFFF_FFFF && imm / 0x1_0000 == 0 && imm % 0x1_0000 == i % 0x1_0000
    else
      imm == 0xFFFF_FFFF && (i == 0 || (i - 1) * c.chunkSize < total)
  }

  lemma {:induction false} WrittenImm(c: Config, prompt: seq<Byte>, i: nat)
    requires c.chunkSize >= 1 && i <= Chunks(JobFor(c, prompt))
    ensures IsCompletion(c, |Pack(c.model(prompt))|, i, JobFor(c, prompt).writes[i].imm)
  {
    var total := |Pack(c.model(prompt))|;
    ChunkCount(total, c.chunkSize, i);
    if i < Chunks(JobFor(c, prompt)) {
      JobCovers(c, prompt, i);
    } else if i > 0 {
      ChunkCount(total, c.chunkSize, i - 1);
    }
  }

  /** What decode is about to poll: the sentinel, or layer 0 and the number of chunks it has
      already counted. */
  lemma {:induction false} NextCompletion(c: Config, s: State)
    requires ValidConfig(c) && Reachable(c, s) && s.d.pc.DPoll? && s.cq != []
    ensures s.cq[0] != SENTINEL ==>
      ImmLayer(s.cq[0]) == 0 && ImmChunk(s.cq[0]) == s.d.chunksReceived % 0x1_0000
    ensures s.d.k < |c.prompts| && IsCompletion(c, |Pack(c.model(c.prompts[s.d.k]))|, s.d.chunksReceived, s.cq[0])
  {
    ReachableInv(c, s);
    PolledIs(c, s);
    WrittenImm(c, c.prompts[s.d.k], s.d.chunksReceived);
  }

  lemma {:induction false} PolledIs(c: Config, s: State)
    requires ValidConfig(c) && Inv(c, JobsOf(c), s) && s.d.pc.DPoll? && s.cq != []
    ensures s.d.k < |c.prompts| && s.d.chunksReceived <= ChunksOf(c, s.d.k)
    ensures s.cq[0] == Announced(c, s.d.k)[s.d.chunksReceived]
    ensures s.cq[0] == SENTINEL <==> s.d.chunksReceived == ChunksOf(c, s.d.k)
  {
    var g := JobsOf(c);
    PollSees(c, g, s);
    CarriesPolled(At(g, s.d.k).writes, Polled(g, s), s.cq, s.wire);
  }

  // ------------------------------------------------------------------- over runs

  predicate PollsFor(s: State, a: Action, k: nat) { a.DPollOne? && s.d.k == k && s.cq != [] }

  /** The immediates decode polls for prompt k in a run, in order. */
  ghost function Seen(c: Config, s: State, acts: seq<Action>, k: nat): seq<nat>
    requires c.chunkSize > 0
    decreases |acts|
  {
    if acts == [] || Step(c, s, acts[0]).None? then []
    else (if PollsFor(s, acts[0], k) then [s.cq[0]] else []) + Seen(c, Step(c, s, acts[0]).value, acts[1..], k)
  }

  function ChunksOf(c: Config, k: nat): nat
    requires c.chunkSize >= 1 && k < |c.prompts|
  {
    CeilDiv(|Pack(c.model(c.prompts[k]))|, c.chunkSize)
  }

  /** How many completions of prompt k decode has polled. */
  ghost function PolledOn(c: Config, d: Decode, k: nat): nat
    requires c.chunkSize >= 1 && k < |c.prompts|
  {
    if k < d.k || (k == d.k && Received(d.pc)) then ChunksOf(c, k) + 1
    else if k == d.k && Receiving(d.pc) then d.chunksReceived
    else 0
  }

  lemma {:induction false} StepPolls(c: Config, s: State, a: Action, k: nat)
    requires ValidConfig(c) && Inv(c, JobsOf(c), s) && Step(c, s, a).Some? && k < |c.prompts|
    ensures PolledOn(c, Step(c, s, a).value.d, k) == PolledOn(c, s.d, k) + if PollsFor(s, a, k) then 1 else 0
  {
    if a.DPollOne? {
      PolledIs(c, s);
      PollCounts(c, s, k);
    } else if ByDecode(a) {
      OthersPollNothing(c, JobsOf(c), s, a, k);
    } else {
      PrefillStepEarns(c, s, a);
    }
  }

  lemma {:induction false} PollCounts(c: Config, s: State, k: nat)
    requires c.chunkSize >= 1 && StepDPoll(s).Some? && k < |c.prompts|
    requires s.d.k < |c.prompts| && (s.cq[0] == SENTINEL ==> s.d.chunksReceived == ChunksOf(c, s.d.k))
    ensures PolledOn(c, StepDPoll(s).value.d, k) == PolledOn(c, s.d, k) + if s.d.k == k then 1 else 0
  {
  }

  lemma {:induction false} OthersPollNothing(c: Config, g: Jobs, s: State, a: Action, k: nat)
    requires c.chunkSize >= 1 && DecodeVars(c, g, s.d) && Step(c, s, a).Some? && ByDecode(a) && !a.DPollOne?
    requires k < |c.prompts|
    ensures PolledOn(c, Step(c, s, a).value.d, k) == PolledOn(c, s.d, k)
  {
  }

  /** The immediates of a prompt's writes, the sentinel last. */
  ghost function Announced(c: Config, k: nat): (r: seq<nat>)
    requires c.chunkSize >= 1 && k < |c.prompts|
    ensures |r| == ChunksOf(c, k) + 1
  {
    var writes := JobFor(c, c.prompts[k]).writes;
    seq(|writes|, i requires 0 <= i < |writes| => writes[i].imm)
  }

  /** seen is what the prompt announces between two states of decode. */
  ghost predicate SeenBetween(c: Config, d: Decode, d': Decode, k: nat, seen: seq<nat>)
    requires c.chunkSize >= 1 && k < |c.prompts|
  {
    var n := PolledOn(c, d, k);
    && n + |seen| == PolledOn(c, d', k) <= |Announced(c, k)|
    && seen == Announced(c, k)[n..n + |seen|]
  }

  lemma {:induction false} OneMoreSeen(c: Config, d: Decode, d1: Decode, d2: Decode, k: nat, imm: nat, seen: seq<nat>)
    requires c.chunkSize >= 1 && k < |c.prompts| && SeenBetween(c, d1, d2, k, seen)
    requires PolledOn(c, d1, k) == PolledOn(c, d, k) + 1 && imm == Announced(c, k)[PolledOn(c, d, k)]
    ensures SeenBetween(c, d, d2, k, [imm] + seen)
  {
  }

  lemma {:induction false} SameSeen(c: Config, d: Decode, d1: Decode, d2: Decode, k: nat, seen: seq<nat>)
    requires c.chunkSize >= 1 && k < |c.prompts| && SeenBetween(c, d1, d2, k, seen)
    requires PolledOn(c, d1, k) == PolledOn(c, d, k)
    ensures SeenBetween(c, d, d2, k, [] + seen)
  {
    assert [] + seen == seen;
  }

  lemma {:induction false} NothingSeen(c: Config, s: State, k: nat)
    requires ValidConfig(c) && Inv(c, JobsOf(c), s) && k < |c.prompts|
    ensures SeenBetween(c, s.d, s.d, k, [])
  {
    assert PolledOn(c, s.d, k) <= ChunksOf(c, k) + 1;
  }

  /** From its number of completions polled on, a run polls those of the prompt one by one. */
  lemma {:induction false} SeenFrom(c: Config, s: State, acts: seq<Action>, k: nat)
    requires ValidConfig(c) && Inv(c, JobsOf(c), s) && Exec(c, s, acts).Some? && k < |c.prompts|
    ensures SeenBetween(c, s.d, Exec(c, s, acts).value.d, k, Seen(c, s, acts, k))
    decreases |acts|
  {
    if acts == [] {
      NothingSeen(c, s, k);
    } else {
      var s' := Step(c, s, acts[0]).value;
      StepKeeps(c, s, acts[0]);
      SeenFrom(c, s', acts[1..], k);
      SeenStep(c, s, acts[0], k, Exec(c, s', acts[1..]).value.d, Seen(c, s', acts[1..], k));
    }
  }

  lemma {:induction false} SeenStep(c: Config, s: State, a: Action, k: nat, end: Decode, seen: seq<nat>)
    requires ValidConfig(c) && Inv(c, JobsOf(c), s) && Step(c, s, a).Some? && k < |c.prompts|
    requires SeenBetween(c, Step(c, s, a).value.d, end, k, seen)
    ensures SeenBetween(c, s.d, end, k, (if PollsFor(s, a, k) then [s.cq[0]] else []) + seen)
  {
    StepPolls(c, s, a, k);
    if PollsFor(s, a, k) {
      PolledIs(c, s);
      OneMoreSeen(c, s.d, Step(c, s, a).value.d, end, k, s.cq[0], seen);
    } else {
      SameSeen(c, s.d, Step(c, s, a).value.d, end, k, seen);
    }
  }

  /** In every run the completions decode polls for a prompt are chunks 0, 1, 2, ... of layer 0 and
      then the sentinel; for a prompt it is done with, all of them. */
  lemma {:induction false} ChunksInOrder(c: Config, s0: State, acts: seq<Action>, k: nat)
    requires ValidConfig(c) && Start(c, s0) && Exec(c, s0, acts).Some? && k < |c.prompts|
    ensures var total := |Pack(c.model(c.prompts[k]))|; var seen := Seen(c, s0, acts, k);
      && (forall i :: 0 <= i < |seen| ==> IsCompletion(c, total, i, seen[i]))
      && (k < Exec(c, s0, acts).value.d.k ==> |seen| >= 1 && seen[|seen| - 1] == SENTINEL)
  {
    SeenFromStart(c, s0, acts, k);
    var seen := Seen(c, s0, acts, k);
    var total := |Pack(c.model(c.prompts[k]))|;
    forall i | 0 <= i < |seen| ensures IsCompletion(c, total, i, seen[i]) {
      assert seen[i] == Announced(c, k)[i];
      WrittenImm(c, c.prompts[k], i);
    }
    if k < Exec(c, s0, acts).value.d.k {
      ChunkCount(total, c.chunkSize, |seen| - 1);
    }
  }

  lemma {:induction false} SeenFromStart(c: Config, s0: State, acts: seq<Action>, k: nat)
    requires ValidConfig(c) && Start(c, s0) && Exec(c, s0, acts).Some? && k < |c.prompts|
    ensures var n := PolledOn(c, Exec(c, s0, acts).value.d, k);
      n <= ChunksOf(c, k) + 1 && Seen(c, s0, acts, k) == Announced(c, k)[..n]
  {
    var host: seq<Byte>, mem: seq<Byte> :| |host| == |mem| == c.bufSize && s0 == Init(c, host, mem);
    PlanHolds(c);
    InitEstablishes(c, JobsOf(c), host, mem);
    SeenFrom(c, s0, acts, k);
  }

  /** With at most 2^16 chunks their numbers are not truncated: completion i is chunk i. */
  lemma {:induction false} ChunkNumbersFit(c: Config, s0: State, acts: seq<Action>, k: nat, i: nat)
    requires ValidConfig(c) && Start(c, s0) && Exec(c, s0, acts).Some? && k < |c.prompts|
    requires |Pack(c.model(c.prompts[k]))| <= 0x1_0000 * c.chunkSize && i < |Seen(c, s0, acts, k)|
    ensures Seen(c, s0, acts, k)[i] == if i * c.chunkSize < |Pack(c.model(c.prompts[k]))| then i else SENTINEL
  {
    ChunksInOrder(c, s0, acts, k);
    Untruncated(c, |Pack(c.model(c.prompts[k]))|, i, Seen(c, s0, acts, k)[i]);
  }

  lemma {:induction false} Untruncated(c: Config, total: nat, i: nat, imm: nat)
    requires IsCompletion(c, total, i, imm) && total <= 0x1_0000 * c.chunkSize
    ensures imm == if i * c.chunkSize < total then i else SENTINEL
  {
    if i * c.chunkSize < total {
      CancelProduct(i, 0x1_0000, c.chunkSize);
    }
  }

  // -------------------------------------------------------------- what is written

  /** Every chunk prefill posts: number i covers chunkSize bytes from i * chunkSize on, or what is
      left, at the same offset of both buffers. */
  lemma {:induction false} ChunkWritten(c: Config, s: State)
    requires ValidConfig(c) && Reachable(c, s) && s.p.pc.PWrite?
    ensures s.p.served < |c.prompts| && StepPWriteChunk(c, s).Some?
    ensures var wire := StepPWriteChunk(c, s).value.wire;
      && wire != [] && wire[..|wire| - 1] == s.wire
      && IsChunk(c, |Pack(c.model(c.prompts[s.p.served]))|, s.p.i, wire[|wire| - 1])
  {
    ReachableInv(c, s);
    PostedIs(c, s);
    ChunkWriteIs(c, c.prompts[s.p.served], s.p.i);
    PostsLast(c, s);
  }

  lemma {:induction false} PostsLast(c: Config, s: State)
    requires s.p.pc.PWrite?
    ensures StepPWriteChunk(c, s).Some?
    ensures StepPWriteChunk(c, s).value.wire == s.wire + [ChunkWrite(c, s.p.packedBytes, s.p.i)]
  {
  }

  /** Write number i of a prompt of total bytes. */
  predicate IsChunk(c: Config, total: nat, i: nat, w: Write) {
    && w.offset == i * c.chunkSize < total && w.len == Least(c.chunkSize, total - w.offset)
    && IsCompletion(c, total, i, w.imm)
  }

  lemma {:induction false} ChunkWriteIs(c: Config, prompt: seq<Byte>, i: nat)
    requires c.chunkSize >= 1 && i < Chunks(JobFor(c, prompt))
    ensures IsChunk(c, |Pack(c.model(prompt))|, i, ChunkWrite(c, |Pack(c.model(prompt))|, i))
  {
    JobCovers(c, prompt, i);
    WrittenImm(c, prompt, i);
    ChunkCount(|Pack(c.model(prompt))|, c.chunkSize, i);
    assert JobFor(c, prompt).writes[i] == ChunkWrite(c, |Pack(c.model(prompt))|, i);
  }

  /** After the last chunk prefill posts the sentinel, on the first four bytes. */
  lemma {:induction false} SentinelWritten(c: Config, s: State)
    requires ValidConfig(c) && Reachable(c, s) && StepPWriteSentinel(s).Some?
    ensures s.p.served < |c.prompts| && |Pack(c.model(c.prompts[s.p.served]))| <= s.p.i * c.chunkSize
    ensures StepPWriteSentinel(s).value.wire == s.wire + [Write(0, 4, 0xFFFF_FFFF)]
  {
    ReachableInv(c, s);
    PostedIs(c, s);
    ChunkCount(|Pack(c.model(c.prompts[s.p.served]))|, c.chunkSize, s.p.i);
  }

  lemma {:induction false} PostedIs(c: Config, s: State)
    requires ValidConfig(c) && Inv(c, JobsOf(c), s) && (s.p.pc.PWrite? || s.p.pc.PTop?)
    ensures s.p.served < |c.prompts| && s.p.packedBytes == |Pack(c.model(c.prompts[s.p.served]))|
    ensures s.p.i <= s.p.numChunks == Chunks(JobFor(c, c.prompts[s.p.served]))
    ensures s.p.pc.PWrite? ==> s.p.i < s.p.numChunks
  {
    assert JobsOf(c)[s.p.served] == JobFor(c, c.prompts[s.p.served]);
  }
}
