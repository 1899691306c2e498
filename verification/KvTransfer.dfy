/** The disaggregated KVCache transfer: examples/kvcache/prefill_server.py and
    examples/kvcache/decode_server.py as one transition system.

    Each action is one communication step of one party, or one delivery by the
    fabric.  TCP is a FIFO byte stream per direction that may be read in pieces of
    any size; RDMA writes are delivered in order, at any later moment, and each
    consumes one posted receive.  The source bytes are read at delivery. */
module KvTransfer {
  import opened Arithmetic
  import opened Wrappers
  import opened Wire
  import opened KvPacking

  /** What the sender of a byte meant by it.  No program step looks at the role. */
  datatype Role = ReadySignal | PromptHeader | PromptText | Credit | DoneSignal | ManifestHeader | ManifestText

  datatype Octet = Octet(value: Byte, role: Role)

  function Tag(role: Role, bytes: seq<Byte>): (r: seq<Octet>)
    ensures |r| == |bytes|
  {
    seq(|bytes|, i requires 0 <= i < |bytes| => Octet(bytes[i], role))
  }

  function Values(os: seq<Octet>): (r: seq<Byte>)
    ensures |r| == |os|
  {
    seq(|os|, i requires 0 <= i < |os| => os[i].value)
  }

  datatype Meta = Meta(totalBytes: nat, numChunks: nat, manifest: seq<Entry>)

  /** The run-time constants, the prompt list, and the parts of the system that are opaque
      to the transfer: the model (prompt to KVCache layers) and the JSON text codec.  recvDepth is
      how many receives decode's queue pair holds. */
  datatype Config = Config(
    window: nat, chunkSize: nat, bufSize: nat, recvDepth: nat, prompts: seq<seq<Byte>>,
    model: seq<Byte> -> seq<Layer>, toJson: Meta -> seq<Byte>, fromJson: seq<Byte> -> Meta)

  function CeilDiv(n: nat, d: nat): nat
    requires d > 0
  {
    (n + d - 1) / d
  }

  function MetaFor(c: Config, layers: seq<Layer>): Meta
    requires c.chunkSize > 0
  {
    Meta(|Pack(layers)|, CeilDiv(|Pack(layers)|, c.chunkSize), ManifestOf(layers))
  }

  // ------------------------------------------------------------ machine state

  datatype PrefillPc = PReady | PHeader | PPrompt | PTop | PDrain | PWrite | PFinal | PStopped

  /** acc and want are the accumulator and target of the tcp_recv_all in progress. */
  datatype Prefill = Prefill(
    pc: PrefillPc, acc: seq<Octet>, want: nat, served: nat, host: seq<Byte>,
    packedBytes: nat, numChunks: nat, i: nat, credits: int, creditsReceived: nat)

  datatype DecodePc = DPrePost | DReady | DSendPrompt | DManifestHeader | DManifestBody | DPoll
                    | DRepost | DCredit | DDone | DRepostSentinel | DCopy | DStopped

  /** What decode hands to reconstruct_kvcache_zero_copy for one prompt. */
  datatype Output = Output(bytes: seq<Byte>, manifest: seq<Entry>)

  /** turns counts the iterations of the loop in progress. */
  datatype Decode = Decode(
    pc: DecodePc, acc: seq<Octet>, want: nat, k: nat, meta: Meta,
    turns: nat, chunksReceived: nat, outputs: seq<Output>)

  datatype Write = Write(offset: nat, len: int, imm: nat)

  /** d2p and p2d are the bytes in transit; wire the writes posted and not delivered; posted
      the receives decode has posted and no write has consumed; cq its unpolled completions. */
  datatype State = State(p: Prefill, d: Decode, d2p: seq<Octet>, p2d: seq<Octet>,
                         wire: seq<Write>, posted: nat, cq: seq<nat>, mem: seq<Byte>)

  datatype Action =
    | PRead(n: nat) | PBlock | PDrainCredits(n: nat) | PWriteChunk | PWriteSentinel
    | Deliver
    | DPostInitial | DSendReady | DPrompt | DRead(n: nat) | DPollOne | DRepostChunk
    | DSendCredit | DSendDone | DRepostLast | DCopyOut

  function Init(c: Config, host: seq<Byte>, mem: seq<Byte>): State {
    State(Prefill(PReady, [], 1, 0, host, 0, 0, 0, 0, 0),
          Decode(DPrePost, [], 0, 0, Meta(0, 0, []), 0, 0, []),
          [], [], [], 0, [], mem)
  }

  // ------------------------------------------------------------- prefill steps

  predicate Reading(p: Prefill) {
    p.pc.PReady? || p.pc.PHeader? || p.pc.PPrompt? || p.pc.PFinal?
  }

  /** One recv inside a tcp_recv_all: any nonempty piece of what is in transit. */
  function StepPRead(c: Config, s: State, n: nat): Option<State>
    requires c.chunkSize > 0
  {
    if !Reading(s.p) || n == 0 || n > |s.d2p| || |s.p.acc| + n > s.p.want then None
    else
      var acc := s.p.acc + s.d2p[..n];
      var rest := s.(d2p := s.d2p[n..]);
      if |acc| < s.p.want then Some(rest.(p := s.p.(acc := acc)))
      else PReceived(c, rest, Values(acc))
  }

  /** What prefill does once a blocking read has all its bytes. */
  function PReceived(c: Config, s: State, bytes: seq<Byte>): Option<State>
    requires c.chunkSize > 0
  {
    match s.p.pc
    case PReady => Some(s.(p := s.p.(pc := PHeader, acc := [], want := 4)))
    case PHeader =>
      if |bytes| != 4 then None
      else if FromBigEndian32(bytes) == 0 then Some(s.(p := s.p.(pc := PStopped, acc := [], want := 0)))
      else Some(s.(p := s.p.(pc := PPrompt, acc := [], want := FromBigEndian32(bytes))))
    case PPrompt => PServe(c, s, c.model(bytes))
    case PFinal => Some(s.(p := s.p.(pc := PHeader, acc := [], want := 4, served := s.p.served + 1)))
    case _ => None
  }

  /** Consolidate into the host buffer, send the manifest, start the WRITEIMM loop. */
  function PServe(c: Config, s: State, layers: seq<Layer>): Option<State>
    requires c.chunkSize > 0
  {
    var packed := Pack(layers);
    var meta := MetaFor(c, layers);
    var json := c.toJson(meta);
    if |packed| > |s.p.host| || |json| >= U32 then None
    else Some(s.(
      p := s.p.(pc := PTop, acc := [], want := 0, host := packed + s.p.host[|packed|..],
                packedBytes := |packed|, numChunks := meta.numChunks, i := 0,
                credits := c.window, creditsReceived := 0),
      p2d := s.p2d + ManifestFrame(json)))
  }

  function ManifestFrame(json: seq<Byte>): seq<Octet> {
    Tag(ManifestHeader, BigEndian32(|json|)) + Tag(ManifestText, json)
  }

  /** credits <= 0: block for one credit byte. */
  function StepPBlock(s: State): Option<State> {
    if !s.p.pc.PTop? || s.p.i >= s.p.numChunks || s.p.credits > 0 || |s.d2p| == 0 then None
    else Some(s.(d2p := s.d2p[1..],
                 p := s.p.(pc := PDrain, credits := s.p.credits + 1, creditsReceived := s.p.creditsReceived + 1)))
  }

  /** conn.recv(64) on a non-blocking socket: whatever has arrived, possibly nothing. */
  function StepPDrain(s: State, n: nat): Option<State> {
    if || !(s.p.pc.PDrain? || (s.p.pc.PTop? && s.p.i < s.p.numChunks && s.p.credits > 0))
       || n > 64 || n > |s.d2p|
    then None
    else Some(s.(d2p := s.d2p[n..],
                 p := s.p.(pc := PWrite, credits := s.p.credits + n, creditsReceived := s.p.creditsReceived + n)))
  }

  function ChunkWrite(c: Config, total: nat, i: nat): Write {
    var offset := i * c.chunkSize;
    Write(offset, if c.chunkSize < total - offset then c.chunkSize else total - offset, ImmEncode(0, i))
  }

  const SENTINEL_WRITE: Write := Write(0, 4, SENTINEL)

  function StepPWriteChunk(c: Config, s: State): Option<State> {
    if !s.p.pc.PWrite? then None
    else Some(Posting(s, ChunkWrite(c, s.p.packedBytes, s.p.i)))
  }

  /** write_imm of one chunk, and back to the top of the loop. */
  function Posting(s: State, w: Write): State {
    s.(wire := s.wire + [w], p := s.p.(pc := PTop, i := s.p.i + 1, credits := s.p.credits - 1))
  }

  /** After the last chunk: the sentinel, then the exact-length read of what decode still owes. */
  function StepPWriteSentinel(s: State): Option<State> {
    if !s.p.pc.PTop? || s.p.i < s.p.numChunks then None
    else
      var remaining := s.p.numChunks - s.p.creditsReceived + 1;
      var sent := s.(wire := s.wire + [SENTINEL_WRITE]);
      if remaining > 0 then Some(sent.(p := s.p.(pc := PFinal, acc := [], want := remaining)))
      else Some(sent.(p := s.p.(pc := PHeader, acc := [], want := 4, served := s.p.served + 1)))
  }

  // -------------------------------------------------------------------- fabric

  /** The oldest write lands: it consumes a receive, copies the source range, completes. */
  function StepDeliver(s: State): Option<State> {
    if |s.wire| == 0 || s.posted == 0 then None
    else
      var w := s.wire[0];
      if w.len < 0 || w.offset + w.len > |s.mem| || w.offset + w.len > |s.p.host| then None
      else
        var end := w.offset + w.len;
        Some(s.(wire := s.wire[1..], posted := s.posted - 1, cq := s.cq + [w.imm],
                mem := s.mem[..w.offset] + s.p.host[w.offset..end] + s.mem[end..]))
  }

  // ------------------------------------------------------------- decode steps

  /** post_recv raises when the queue is full, and decode goes no further. */
  predicate QueueFull(c: Config, s: State) { s.posted >= c.recvDepth }

  function StepDPostInitial(c: Config, s: State): Option<State> {
    if !s.d.pc.DPrePost? || QueueFull(c, s) then None
    else Some(s.(posted := s.posted + 1,
                 d := s.d.(turns := s.d.turns + 1, pc := if s.d.turns + 1 < c.window + 1 then DPrePost else DReady)))
  }

  function StepDSendReady(s: State): Option<State> {
    if !s.d.pc.DReady? then None
    else Some(s.(d2p := s.d2p + Tag(ReadySignal, [1]), d := s.d.(pc := DSendPrompt)))
  }

  /** Length prefix and text of the next prompt, or the zero length that ends the session. */
  function StepDPrompt(c: Config, s: State): Option<State> {
    if !s.d.pc.DSendPrompt? then None
    else if s.d.k < |c.prompts| then
      var prompt := c.prompts[s.d.k];
      if |prompt| >= U32 then None
      else Some(s.(d2p := s.d2p + PromptFrame(prompt), d := s.d.(pc := DManifestHeader, acc := [], want := 4)))
    else Some(s.(d2p := s.d2p + Tag(PromptHeader, BigEndian32(0)), d := s.d.(pc := DStopped)))
  }

  function PromptFrame(prompt: seq<Byte>): seq<Octet> {
    Tag(PromptHeader, BigEndian32(|prompt|)) + Tag(PromptText, prompt)
  }

  function StepDRead(c: Config, s: State, n: nat): Option<State> {
    if || !(s.d.pc.DManifestHeader? || s.d.pc.DManifestBody?)
       || n == 0 || n > |s.p2d| || |s.d.acc| + n > s.d.want
    then None
    else
      var acc := s.d.acc + s.p2d[..n];
      var rest := s.(p2d := s.p2d[n..]);
      if |acc| < s.d.want then Some(rest.(d := s.d.(acc := acc)))
      else if s.d.pc.DManifestBody? then
        Some(rest.(d := s.d.(pc := DPoll, acc := [], want := 0,
                             meta := c.fromJson(Values(acc)), turns := 0, chunksReceived := 0)))
      else if |acc| != 4 then None
      else Some(rest.(d := s.d.(pc := DManifestBody, acc := [], want := FromBigEndian32(Values(acc)))))
  }

  function StepDPoll(s: State): Option<State> {
    if !s.d.pc.DPoll? || |s.cq| == 0 then None
    else
      var rest := s.(cq := s.cq[1..]);
      if s.cq[0] == SENTINEL then Some(rest.(d := s.d.(pc := DDone, turns := s.d.turns + 1)))
      else Some(rest.(d := s.d.(pc := DRepost, turns := s.d.turns + 1, chunksReceived := s.d.chunksReceived + 1)))
  }

  function StepDRepost(c: Config, s: State): Option<State> {
    if !s.d.pc.DRepost? || QueueFull(c, s) then None
    else Some(s.(posted := s.posted + 1, d := s.d.(pc := DCredit)))
  }

  function StepDSendCredit(s: State): Option<State> {
    if !s.d.pc.DCredit? then None
    else Some(s.(d2p := s.d2p + Tag(Credit, [1]),
                 d := s.d.(pc := if s.d.turns < s.d.meta.numChunks + 1 then DPoll else DDone)))
  }

  function StepDSendDone(s: State): Option<State> {
    if !s.d.pc.DDone? then None
    else Some(s.(d2p := s.d2p + Tag(DoneSignal, [1]), d := s.d.(pc := DRepostSentinel)))
  }

  function StepDRepostLast(c: Config, s: State): Option<State> {
    if !s.d.pc.DRepostSentinel? || QueueFull(c, s) then None
    else Some(s.(posted := s.posted + 1, d := s.d.(pc := DCopy)))
  }

  /** bytearray(host_mmap[:total_bytes]) and the reconstruction from it, which may raise; then on
      to the next prompt. */
  function StepDCopyOut(s: State): Option<State> {
    if !s.d.pc.DCopy? || s.d.meta.totalBytes > |s.mem| then None
    else if !Rebuilds(s.mem[..s.d.meta.totalBytes], s.d.meta.manifest) then None
    else Some(s.(d := s.d.(pc := DSendPrompt, k := s.d.k + 1,
                           outputs := s.d.outputs + [Output(s.mem[..s.d.meta.totalBytes], s.d.meta.manifest)])))
  }

  function Step(c: Config, s: State, a: Action): Option<State>
    requires c.chunkSize > 0
  {
    match a
    case PRead(n) => StepPRead(c, s, n)
    case PBlock => StepPBlock(s)
    case PDrainCredits(n) => StepPDrain(s, n)
    case PWriteChunk => StepPWriteChunk(c, s)
    case PWriteSentinel => StepPWriteSentinel(s)
    case Deliver => StepDeliver(s)
    case DPostInitial => StepDPostInitial(c, s)
    case DSendReady => StepDSendReady(s)
    case DPrompt => StepDPrompt(c, s)
    case DRead(n) => StepDRead(c, s, n)
    case DPollOne => StepDPoll(s)
    case DRepostChunk => StepDRepost(c, s)
    case DSendCredit => StepDSendCredit(s)
    case DSendDone => StepDSendDone(s)
    case DRepostLast => StepDRepostLast(c, s)
    case DCopyOut => StepDCopyOut(s)
  }
}
