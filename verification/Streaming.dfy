/** Pipelined streaming: the send, poll and replenish loop shared by the streaming benchmark
    (driver/benchmark.c) and the queue-depth sweep (driver/flow_control.c). */
module Streaming {
  import opened Arithmetic

  /** One run of the loop.  fatal says whether a failed replenish ends the run: it does in the
      streaming benchmark and does not in the sweep. */
  datatype Config = Config(qdepth: Word32, iterations: Word32, fatal: bool)

  /** The depth 0 stands for 16 in the streaming benchmark. */
  function StreamingConfig(queueDepth: Word32, iterations: Word32): Config {
    Config(if queueDepth != 0 then queueDepth else 16, iterations, true)
  }

  /** What one turn of the loop meets: whether a post_send of its burst fails and after how
      many, what the send CQ polls, and whether the replenishing post_recv fails. */
  datatype Poll = Success | Failure | Timeout
  datatype Turn = Turn(sendFails: bool, sendsBefore: nat, poll: Poll, recvFails: bool)

  datatype Status = Running | PostFailed | Eio | Etimedout

  /** failures counts replenishes that failed; starved records that some send was posted with
      no receive left for it. */
  datatype State = State(sent: nat, completed: nat, outstanding: nat, recvPosted: nat, status: Status,
                         failures: nat, starved: bool)

  /** Receives posted before the first send: the doubling is in 32 bits. */
  function PrePost(c: Config): Word32 {
    Least(c.qdepth * 2 % U32, c.iterations)
  }

  function Begin(c: Config): State { State(0, 0, 0, PrePost(c), Running, 0, false) }

  predicate CanSend(c: Config, s: State) { s.sent < c.iterations && s.outstanding < c.qdepth }

  function PostSend(s: State): State {
    s.(sent := s.sent + 1, outstanding := s.outstanding + 1, starved := s.starved || s.sent >= s.recvPosted)
  }

  /** The inner loop: post until the depth or the iterations are used up, or a post fails. */
  function Burst(c: Config, s: State, fails: bool, before: nat): State
    decreases c.iterations - s.sent
  {
    if !CanSend(c, s) then s
    else if fails && before == 0 then s.(status := PostFailed)
    else Burst(c, PostSend(s), fails, if fails then before - 1 else 0)
  }

  /** Only reached with a send outstanding: see EveryPollHasASend. */
  function AfterPoll(c: Config, s: State, t: Turn): State {
    match t.poll
    case Failure => s.(status := Eio)
    case Timeout => s.(status := Etimedout)
    case Success => Replenish(c, s.(outstanding := AtLeastOne(s.outstanding) - 1, completed := s.completed + 1), t)
  }

  function Replenish(c: Config, s: State, t: Turn): State {
    if s.recvPosted >= c.iterations then s
    else if !t.recvFails then s.(recvPosted := s.recvPosted + 1)
    else if c.fatal then s.(status := PostFailed, failures := s.failures + 1)
    else s.(failures := s.failures + 1)
  }

  function Bursted(c: Config, s: State, t: Turn): State { Burst(c, s, t.sendFails, t.sendsBefore) }

  predicate Going(c: Config, s: State) { s.status.Running? && s.completed < c.iterations }

  function TakeTurn(c: Config, s: State, t: Turn): State {
    if !Going(c, s) then s
    else
      var b := Bursted(c, s, t);
      if b.status.Running? then AfterPoll(c, b, t) else b
  }

  function RunOf(c: Config, turns: seq<Turn>): State {
    if turns == [] then Begin(c)
    else TakeTurn(c, RunOf(c, turns[..|turns| - 1]), turns[|turns| - 1])
  }

  // ------------------------------------------------------------------ invariant

  predicate Inv(c: Config, s: State) {
    && s.sent == s.completed + s.outstanding <= c.iterations
    && s.outstanding <= c.qdepth
    && s.recvPosted == Least(c.iterations, PrePost(c) + s.completed - s.failures)
    && s.failures <= s.completed
    && (c.fatal && s.failures > 0 ==> s.status.PostFailed?)
  }

  /** A burst posts up to the depth or the iterations, and starves exactly when that goes past
      the receives posted. */
  lemma {:induction false} BurstKeeps(c: Config, s: State, fails: bool, before: nat)
    requires Inv(c, s) && s.status.Running?
    ensures var b := Burst(c, s, fails, before);
      && Inv(c, b) && b == s.(sent := b.sent, outstanding := b.outstanding, status := b.status, starved := b.starved)
      && s.sent <= b.sent
      && (b.starved <==> s.starved || (s.sent < b.sent && b.sent > s.recvPosted))
      && (b.status.Running? ==> b.sent == Least(c.iterations, s.completed + c.qdepth))
      && (b.status.Running? || (fails && b.status.PostFailed?))
    decreases c.iterations - s.sent
  {
    if CanSend(c, s) && !(fails && before == 0) {
      BurstKeeps(c, PostSend(s), fails, if fails then before - 1 else 0);
    }
  }

  /** The send CQ is only polled while a send is outstanding. */
  lemma {:induction false} EveryPollHasASend(c: Config, s: State, t: Turn)
    requires Inv(c, s) && Going(c, s) && c.qdepth >= 1
    ensures var b := Bursted(c, s, t); b.status.Running? ==> b.outstanding >= 1
  {
    BurstKeeps(c, s, t.sendFails, t.sendsBefore);
  }

  lemma {:induction false} PollKeeps(c: Config, b: State, t: Turn)
    requires Inv(c, b) && Going(c, b) && b.outstanding >= 1
    ensures Inv(c, AfterPoll(c, b, t)) && AfterPoll(c, b, t).starved == b.starved
    ensures AfterPoll(c, b, t).status.Running? ==> AfterPoll(c, b, t).completed == b.completed + 1
  {
  }

  lemma {:induction false} TurnKeeps(c: Config, s: State, t: Turn)
    requires Inv(c, s) && c.qdepth >= 1
    ensures Inv(c, TakeTurn(c, s, t))
    ensures TakeTurn(c, s, t).status.Running? && Going(c, s) ==> TakeTurn(c, s, t).completed == s.completed + 1
  {
    if Going(c, s) {
      BurstKeeps(c, s, t.sendFails, t.sendsBefore);
      EveryPollHasASend(c, s, t);
      if Bursted(c, s, t).status.Running? {
        PollKeeps(c, Bursted(c, s, t), t);
      }
    }
  }

  /** Only a burst can starve, and only without slack. */
  lemma {:induction false} TurnStarves(c: Config, s: State, t: Turn)
    requires Inv(c, s) && c.qdepth >= 1 && TakeTurn(c, s, t).starved && !s.starved
    ensures Going(c, s) && Least(c.qdepth, c.iterations - s.completed) + s.failures > PrePost(c)
  {
    BurstKeeps(c, s, t.sendFails, t.sendsBefore);
    EveryPollHasASend(c, s, t);
    if Bursted(c, s, t).status.Running? {
      PollKeeps(c, Bursted(c, s, t), t);
    }
  }

  lemma {:induction false} RunKeeps(c: Config, turns: seq<Turn>)
    requires c.qdepth >= 1
    ensures Inv(c, RunOf(c, turns))
  {
    if turns != [] {
      RunKeeps(c, turns[..|turns| - 1]);
      TurnKeeps(c, RunOf(c, turns[..|turns| - 1]), turns[|turns| - 1]);
    }
  }

  // ------------------------------------------------------------- what runs promise

  /** After every turn recv_posted is min(iterations, pre_post + completed), less the
      replenishes that failed; in flight and unconsumed receives stay within the depth and
      twice the depth. */
  lemma {:induction false} ReceivesTrackCompletions(c: Config, turns: seq<Turn>)
    requires c.qdepth >= 1
    ensures var s := RunOf(c, turns);
      && s.recvPosted == Least(c.iterations, PrePost(c) + s.completed - s.failures)
      && (c.fatal && !s.status.PostFailed? ==> s.failures == 0)
      && s.recvPosted - s.completed <= PrePost(c) <= 2 * c.qdepth
      && s.sent - s.completed == s.outstanding <= Least(c.qdepth, c.iterations)
  {
    RunKeeps(c, turns);
  }

  /** Every send has a receive of its own while the failed replenishes fit in the slack of the
      pre-post: that is up to qdepth of them, in a sweep with iterations to spare. */
  lemma {:induction false} SlackPreventsStarving(c: Config, turns: seq<Turn>)
    requires c.qdepth >= 1 && Least(c.qdepth, c.iterations) + RunOf(c, turns).failures <= PrePost(c)
    ensures !RunOf(c, turns).starved
  {
    RunKeeps(c, turns);
    if turns != [] {
      var r, t := RunOf(c, turns[..|turns| - 1]), turns[|turns| - 1];
      RunKeeps(c, turns[..|turns| - 1]);
      FailuresGrow(c, r, t);
      SlackPreventsStarving(c, turns[..|turns| - 1]);
      if RunOf(c, turns).starved {
        TurnStarves(c, r, t);
      }
    }
  }

  lemma {:induction false} FailuresGrow(c: Config, s: State, t: Turn)
    requires Inv(c, s)
    ensures s.failures <= TakeTurn(c, s, t).failures
  {
    if Going(c, s) {
      BurstKeeps(c, s, t.sendFails, t.sendsBefore);
    }
  }

  /** Past that slack the next full burst starves. */
  lemma {:induction false} NoSlackStarves(c: Config, turns: seq<Turn>, t: Turn)
    requires c.qdepth >= 1 && !t.sendFails
    requires Going(c, RunOf(c, turns)) && CanSend(c, RunOf(c, turns))
    requires Least(c.qdepth, c.iterations - RunOf(c, turns).completed) + RunOf(c, turns).failures > PrePost(c)
    ensures RunOf(c, turns + [t]).starved
  {
    RunKeeps(c, turns);
    assert (turns + [t])[..|turns|] == turns;
    BurstKeeps(c, RunOf(c, turns), false, t.sendsBefore);
  }

  const SEND_NO_RECEIVE: Turn := Turn(false, 0, Success, true)

  /** n turns whose replenish fails. */
  function Failing(n: nat): seq<Turn> { seq(n, _ => SEND_NO_RECEIVE) }

  /** Some run at the sweep's depth sends without a receive exactly if there are more iterations
      than receives posted up front; depth + 1 failed replenishes then do it. */
  lemma {:induction false} SweepStarvesIff(c: Config)
    requires 1 <= c.qdepth < 0x8000_0000 && !c.fatal
    ensures c.iterations > 2 * c.qdepth ==> RunOf(c, Failing(c.qdepth + 1) + [SEND_NO_RECEIVE]).starved
    ensures c.iterations <= 2 * c.qdepth ==> forall turns :: !RunOf(c, turns).starved
  {
    if c.iterations > 2 * c.qdepth {
      FailingRun(c, c.qdepth + 1);
      RunKeeps(c, Failing(c.qdepth + 1));
      NoSlackStarves(c, Failing(c.qdepth + 1), SEND_NO_RECEIVE);
    } else {
      forall turns ensures !RunOf(c, turns).starved {
        AllPostedUpFront(c, turns);
      }
    }
  }

  lemma {:induction false} FailingRun(c: Config, n: nat)
    requires 1 <= c.qdepth && 2 * c.qdepth < U32 && !c.fatal && c.iterations > 2 * c.qdepth && n <= c.qdepth + 1
    ensures var s := RunOf(c, Failing(n));
      && s.status.Running? && s.completed == s.failures == n && (n >= 1 ==> s.outstanding == c.qdepth - 1)
  {
    if n > 0 {
      var s := RunOf(c, Failing(n - 1));
      FailingRun(c, n - 1);
      RunKeeps(c, Failing(n - 1));
      assert Failing(n)[..n - 1] == Failing(n - 1);
      BurstKeeps(c, s, false, 0);
      EveryPollHasASend(c, s, SEND_NO_RECEIVE);
    }
  }

  lemma {:induction false} AllPostedUpFront(c: Config, turns: seq<Turn>)
    requires 1 <= c.qdepth && 2 * c.qdepth < U32 && c.iterations <= 2 * c.qdepth
    ensures !RunOf(c, turns).starved && RunOf(c, turns).failures == 0
  {
    if turns != [] {
      var before, t := turns[..|turns| - 1], turns[|turns| - 1];
      var s := RunOf(c, before);
      AllPostedUpFront(c, before);
      RunKeeps(c, before);
      NothingToReplenish(c, s, t);
      if RunOf(c, turns).starved {
        TurnStarves(c, s, t);
      }
    }
  }

  lemma {:induction false} NothingToReplenish(c: Config, s: State, t: Turn)
    requires Inv(c, s) && s.recvPosted >= c.iterations
    ensures TakeTurn(c, s, t).failures == s.failures
  {
    if Going(c, s) {
      BurstKeeps(c, s, t.sendFails, t.sendsBefore);
    }
  }

  /** The condition under which no run of the streaming benchmark starves. */
  predicate NeverStarves(c: Config) { Least(c.qdepth, c.iterations) <= PrePost(c) }

  /** The streaming benchmark never sends without a receive if and only if the first burst
      fits the pre-post. */
  lemma {:induction false} StreamingStarvesIff(c: Config, turns: seq<Turn>, t: Turn)
    requires c.qdepth >= 1 && c.fatal && c.iterations >= 1 && !t.sendFails
    ensures NeverStarves(c) ==> !RunOf(c, turns).starved
    ensures !NeverStarves(c) ==> RunOf(c, [t]).starved
  {
    if NeverStarves(c) {
      FatalNeverStarves(c, turns);
    } else {
      assert [] + [t] == [t];
      NoSlackStarves(c, [], t);
    }
  }

  lemma {:induction false} FatalNeverStarves(c: Config, turns: seq<Turn>)
    requires c.qdepth >= 1 && c.fatal && NeverStarves(c)
    ensures !RunOf(c, turns).starved
  {
    if turns != [] {
      var before := turns[..|turns| - 1];
      RunKeeps(c, before);
      FatalNeverStarves(c, before);
      if RunOf(c, turns).starved {
        TurnStarves(c, RunOf(c, before), turns[|turns| - 1]);
      }
    }
  }

  /** In the caller's terms: the doubled depth fits 32 bits, or what is left of it after
      wrapping still covers every iteration. */
  lemma {:induction false} NeverStarvesWhen(c: Config)
    requires c.qdepth >= 1
    ensures NeverStarves(c) <==> c.qdepth < 0x8000_0000 || c.iterations <= 2 * c.qdepth - U32
  {
    if c.qdepth >= 0x8000_0000 {
      assert c.qdepth * 2 % U32 == 2 * c.qdepth - U32;
    } else {
      assert c.qdepth * 2 % U32 == 2 * c.qdepth;
    }
  }

  // ------------------------------------------------------------------ the loops

  lemma {:induction false} NextTurn(c: Config, turns: seq<Turn>, i: nat)
    requires i < |turns|
    ensures RunOf(c, turns[..i + 1]) == TakeTurn(c, RunOf(c, turns[..i]), turns[i])
  {
    assert turns[..i + 1][..i] == turns[..i];
  }

  lemma {:induction false} RunEnds(c: Config, turns: seq<Turn>, i: nat)
    requires i <= |turns| && !Going(c, RunOf(c, turns[..i]))
    ensures RunOf(c, turns) == RunOf(c, turns[..i])
    decreases |turns| - i
  {
    if i < |turns| {
      NextTurn(c, turns, i);
      RunEnds(c, turns, i + 1);
    } else {
      assert turns[..i] == turns;
    }
  }

  /** The inner send loop on its variables. */
  method SendBurst(c: Config, t: Turn, ghost s: State, sent: Word32, outstanding: Word32)
    returns (ok: bool, sent': Word32, outstanding': Word32)
    requires Inv(c, s) && s.status.Running? && sent == s.sent && outstanding == s.outstanding
    ensures var b := Bursted(c, s, t);
      sent' == b.sent && outstanding' == b.outstanding && (ok <==> b.status.Running?)
  {
    var before: nat := t.sendsBefore;
    ok, sent', outstanding' := true, sent, outstanding;
    ghost var now := s;
    while sent' < c.iterations && outstanding' < c.qdepth && ok
      invariant Inv(c, now) && sent' == now.sent && outstanding' == now.outstanding
      invariant ok ==> now.status.Running?
      invariant ok ==>
        Bursted(c, s, t) == Burst(c, now, t.sendFails, if t.sendFails then before else t.sendsBefore)
      invariant !ok ==> now == Bursted(c, s, t) && now.status.PostFailed?
      decreases ok, c.iterations - sent'
    {
      if t.sendFails && before == 0 {
        ok := false;
        now := now.(status := PostFailed);
      } else {
        BurstIgnores(c, PostSend(now), 0, t.sendsBefore);
        sent', outstanding' := sent' + 1, outstanding' + 1;
        if t.sendFails {
          before := before - 1;
        }
        now := PostSend(now);
      }
    }
  }

  /** A burst that no post_send fails does not depend on where it would have failed. */
  lemma {:induction false} BurstIgnores(c: Config, s: State, a: nat, b: nat)
    ensures Burst(c, s, false, a) == Burst(c, s, false, b)
    decreases c.iterations - s.sent
  {
  }

  /** The poll of one turn and the replenish behind it, on the variables. */
  method PollOnce(c: Config, t: Turn, ghost b: State, completed: Word32, outstanding: Word32, recvPosted: Word32)
    returns (status: Status, completed': Word32, outstanding': Word32, recvPosted': Word32)
    requires b.status.Running? && completed == b.completed < c.iterations
    requires outstanding == b.outstanding && outstanding >= 1 && recvPosted == b.recvPosted
    ensures var s := AfterPoll(c, b, t);
      && status == s.status && completed' == s.completed && outstanding' == s.outstanding
      && recvPosted' == s.recvPosted && b.sent == s.sent
  {
    status, completed', outstanding', recvPosted' := Running, completed, outstanding, recvPosted;
    match t.poll {
      case Failure => status := Eio;
      case Timeout => status := Etimedout;
      case Success =>
        outstanding', completed' := outstanding - 1, completed + 1;
        if recvPosted < c.iterations {
          if !t.recvFails {
            recvPosted' := recvPosted + 1;
          } else if c.fatal {
            status := PostFailed;
          }
        }
    }
  }

  /** The receives posted before the first send. */
  method PostFirst(c: Config) returns (recvPosted: Word32)
    ensures recvPosted == PrePost(c)
  {
    recvPosted := c.qdepth * 2 % U32;
    if recvPosted > c.iterations {
      recvPosted := c.iterations;
    }
  }

  /** One turn of the loop on its variables. */
  method TurnOnce(c: Config, t: Turn, ghost s: State, sent: Word32, completed: Word32, outstanding: Word32,
                  recvPosted: Word32)
    returns (status: Status, sent': Word32, completed': Word32, outstanding': Word32, recvPosted': Word32)
    requires c.qdepth >= 1 && Inv(c, s) && Going(c, s)
    requires Shows(s, Running, sent, completed, recvPosted) && outstanding == s.outstanding
    ensures Shows(TakeTurn(c, s, t), status, sent', completed', recvPosted')
    ensures outstanding' == TakeTurn(c, s, t).outstanding && Inv(c, TakeTurn(c, s, t))
    ensures status.Running? ==> completed' == completed + 1
  {
    TurnKeeps(c, s, t);
    EveryPollHasASend(c, s, t);
    BurstKeeps(c, s, t.sendFails, t.sendsBefore);
    var ok;
    ok, sent', outstanding' := SendBurst(c, t, s, sent, outstanding);
    status, completed', recvPosted' := PostFailed, completed, recvPosted;
    if ok {
      status, completed', outstanding', recvPosted' :=
        PollOnce(c, t, Bursted(c, s, t), completed, outstanding', recvPosted);
    }
  }

  /** The pre-post, send, poll and replenish loop.  turns says what each turn meets; every turn
      completes one send or ends the run, so as many turns as iterations are enough. */
  method PipelinedRun(c: Config, turns: seq<Turn>)
    returns (status: Status, sent: Word32, completed: Word32, recvPosted: Word32)
    requires c.qdepth >= 1 && |turns| >= c.iterations
    ensures Shows(RunOf(c, turns), status, sent, completed, recvPosted)
    ensures status.Running? ==> completed == sent == c.iterations
  {
    sent, completed, status := 0, 0, Running;
    recvPosted := PostFirst(c);
    assert Shows(Begin(c), status, sent, completed, recvPosted);
    var outstanding: Word32 := 0;
    ghost var i: nat := 0;
    assert turns[..0] == [];
    RunKeeps(c, []);
    while completed < c.iterations && status.Running?
      invariant i <= |turns| && Inv(c, RunOf(c, turns[..i]))
      invariant Shows(RunOf(c, turns[..i]), status, sent, completed, recvPosted)
      invariant outstanding == RunOf(c, turns[..i]).outstanding
      invariant status.Running? ==> i == completed
      decreases status.Running?, c.iterations - completed
    {
      NextTurn(c, turns, i);
      status, sent, completed, outstanding, recvPosted :=
        TurnOnce(c, turns[completed], RunOf(c, turns[..i]), sent, completed, outstanding, recvPosted);
      i := i + 1;
    }
    RunEnds(c, turns, i);
  }

  predicate Shows(s: State, status: Status, sent: nat, completed: nat, recvPosted: nat) {
    status == s.status && sent == s.sent && completed == s.completed && recvPosted == s.recvPosted
  }

  // -------------------------------------------------------------- the benchmark

  /** What a benchmark ioctl answers before it runs. */
  datatype Answer = Accepted | Enodev | Einval | Enoent

  /** In the benchmark's own parameters, where a queue depth of 0 stands for 16. */
  lemma {:induction false} BenchmarkNeverStarvesWhen(queueDepth: Word32, iterations: Word32)
    ensures NeverStarves(StreamingConfig(queueDepth, iterations)) <==>
      queueDepth < 0x8000_0000 || iterations <= 2 * queueDepth - U32
  {
    NeverStarvesWhen(StreamingConfig(queueDepth, iterations));
  }

  /** benchmark_streaming: no send is without a receive when the doubled depth fits 32 bits, or
      what is left of it covers the iterations. */
  method BenchmarkStreaming(initialized: bool, iterations: Word32, msgSize: nat, queueDepth: Word32,
                            found: bool, bufSize: nat, turns: seq<Turn>)
    returns (answer: Answer, status: Status, sent: Word32, completed: Word32, recvPosted: Word32, ghost peak: nat)
    requires |turns| >= iterations
    ensures !answer.Enodev?
    ensures answer.Enoent? <==> (initialized && iterations >= 1 && msgSize >= 1 && !found)
    ensures answer.Einval? <==> (!initialized || iterations == 0 || msgSize == 0 || (found && msgSize > bufSize))
    ensures answer.Accepted? ==>
      && Shows(RunOf(StreamingConfig(queueDepth, iterations), turns), status, sent, completed, recvPosted)
      && (status.Running? ==> completed == sent == recvPosted == iterations)
    ensures answer.Accepted? && (queueDepth < 0x8000_0000 || iterations <= 2 * queueDepth - U32) ==>
      !RunOf(StreamingConfig(queueDepth, iterations), turns).starved
    ensures answer.Accepted? ==>
      var t, d := turns[0], if queueDepth == 0 then 16 else queueDepth;
      var burst := Least(d, iterations);
      && (t.sendFails && t.sendsBefore < burst ==> status.PostFailed? && sent == t.sendsBefore)
      && (!t.sendFails && !t.poll.Success? ==> sent == burst && status == if t.poll.Failure? then Eio else Etimedout)
      && ((t.sendFails && t.sendsBefore < burst) || (!t.sendFails && !t.poll.Success?) ==>
            completed == 0 && recvPosted == Least(2 * d % U32, iterations))
    ensures answer.Accepted? ==> peak == PeakOf(StreamingConfig(queueDepth, iterations), turns)
    ensures answer.Accepted? ==>
      var d := if queueDepth == 0 then 16 else queueDepth;
      peak <= Least(d, iterations) && (status.Running? ==> peak == Least(d, iterations))
  {
    status, sent, completed, recvPosted, peak := Running, 0, 0, 0, 0;
    if !initialized || iterations == 0 || msgSize == 0 {
      return Einval, status, sent, completed, recvPosted, peak;
    }
    if !found {
      return Enoent, status, sent, completed, recvPosted, peak;
    }
    if msgSize > bufSize {
      return Einval, status, sent, completed, recvPosted, peak;
    }
    var c := StreamingConfig(queueDepth, iterations);
    status, sent, completed, recvPosted := PipelinedRun(c, turns);
    peak := PeakOf(c, turns);
    PeakIs(c, turns);
    if (if turns[0].sendFails then turns[0].sendsBefore < Least(c.qdepth, c.iterations) else !turns[0].poll.Success?) {
      FirstTurnFails(c, turns);
    }
    answer := Accepted;
    BenchmarkNeverStarvesWhen(queueDepth, iterations);
    if NeverStarves(c) {
      FatalNeverStarves(c, turns);
    }
    AllReceivesPosted(c, turns);
  }

  /** The most sends a run has outstanding when it polls. */
  function PeakOf(c: Config, turns: seq<Turn>): nat {
    if turns == [] then 0
    else
      var before, t := turns[..|turns| - 1], turns[|turns| - 1];
      var now := if Going(c, RunOf(c, before)) then Bursted(c, RunOf(c, before), t).outstanding else 0;
      if now > PeakOf(c, before) then now else PeakOf(c, before)
  }

  /** The depth bounds what is in flight, and a run that completes anything gets there. */
  lemma {:induction false} PeakIs(c: Config, turns: seq<Turn>)
    requires c.qdepth >= 1
    ensures PeakOf(c, turns) <= Least(c.qdepth, c.iterations)
    ensures RunOf(c, turns).completed >= 1 ==> PeakOf(c, turns) == Least(c.qdepth, c.iterations)
  {
    if turns != [] {
      var before, t := turns[..|turns| - 1], turns[|turns| - 1];
      PeakIs(c, before);
      RunKeeps(c, before);
      if Going(c, RunOf(c, before)) {
        BurstPeak(c, RunOf(c, before), t);
      }
    }
  }

  lemma {:induction false} BurstPeak(c: Config, s: State, t: Turn)
    requires Inv(c, s) && c.qdepth >= 1 && Going(c, s)
    ensures Bursted(c, s, t).outstanding <= Least(c.qdepth, c.iterations)
    ensures TakeTurn(c, s, t).completed >= 1 && s.completed == 0 ==>
      Bursted(c, s, t).outstanding == Least(c.qdepth, c.iterations)
  {
    BurstKeeps(c, s, t.sendFails, t.sendsBefore);
  }

  /** A burst whose post_send fails after some sends stops there, if it gets that far. */
  lemma {:induction false} BurstStops(c: Config, s: State, before: nat)
    requires Inv(c, s) && s.status.Running?
    ensures var room := Least(c.iterations - s.sent, c.qdepth - s.outstanding);
      var b := Burst(c, s, true, before);
      if before < room then b.status.PostFailed? && b.sent == s.sent + before else b.status.Running?
    decreases c.iterations - s.sent
  {
    if CanSend(c, s) && before > 0 {
      BurstStops(c, PostSend(s), before - 1);
    }
  }

  /** A failure in the first turn ends the run and shows how large the first burst was. */
  lemma {:induction false} FirstTurnFails(c: Config, turns: seq<Turn>)
    requires c.qdepth >= 1 && c.iterations >= 1 && |turns| >= 1
    requires turns[0].sendFails ==> turns[0].sendsBefore < Least(c.qdepth, c.iterations)
    requires turns[0].sendFails || !turns[0].poll.Success?
    ensures var s, t := RunOf(c, turns), turns[0];
      && s.completed == 0 && s.recvPosted == PrePost(c)
      && s.sent == (if t.sendFails then t.sendsBefore else Least(c.qdepth, c.iterations))
      && s.status == if t.sendFails then PostFailed else if t.poll.Failure? then Eio else Etimedout
  {
    NextTurn(c, turns, 0);
    assert turns[..0] == [];
    RunKeeps(c, []);
    BurstKeeps(c, Begin(c), turns[0].sendFails, turns[0].sendsBefore);
    BurstStops(c, Begin(c), turns[0].sendsBefore);
    RunEnds(c, turns, 1);
  }

  /** A benchmark that completes has posted exactly one receive per iteration. */
  lemma {:induction false} AllReceivesPosted(c: Config, turns: seq<Turn>)
    requires c.qdepth >= 1 && c.fatal
    ensures var s := RunOf(c, turns);
      s.status.Running? && s.completed == c.iterations ==> s.recvPosted == c.iterations
  {
    RunKeeps(c, turns);
  }

  // ------------------------------------------------------------------ the sweep

  const MAX_SWEEP_POINTS: nat := 32

  datatype Sweep = Sweep(minDepth: Word32, maxDepth: Word32, step: Word32, iterations: Word32)

  predicate Accepts(p: Sweep) {
    1 <= p.minDepth <= p.maxDepth <= 64 && p.step >= 1 && p.iterations >= 1
  }

  function Depth(p: Sweep, k: nat): int { p.minDepth + k * p.step }

  function PointConfig(p: Sweep, k: nat): (c: Config)
    requires Accepts(p) && Depth(p, k) <= p.maxDepth
    ensures 1 <= c.qdepth <= 64 && Least(c.qdepth, c.iterations) <= PrePost(c)
  {
    assert k * p.step >= 0;
    Config(Depth(p, k), p.iterations, false)
  }

  /** How many depths from min by step do not pass max. */
  function Points(p: Sweep): (n: nat)
    requires Accepts(p)
    ensures n >= 1
  {
    (p.maxDepth - p.minDepth) / p.step + 1
  }

  lemma {:induction false} DivisionBound(d: nat, s: nat, q: nat, r: nat, k: nat)
    requires d == q * s + r && r < s
    ensures k <= q <==> k * s <= d
  {
    if k <= q {
      Arithmetic.Product(k, q, s);
    } else {
      Arithmetic.Product(q + 1, k, s);
      assert (q + 1) * s == q * s + s;
    }
  }

  lemma {:induction false} PointInRange(p: Sweep, k: nat)
    requires Accepts(p)
    ensures k < Points(p) <==> Depth(p, k) <= p.maxDepth
  {
    var d := p.maxDepth - p.minDepth;
    DivisionBound(d, p.step, d / p.step, d % p.step, k);
  }

  /** Point k was run at its depth, to the last iteration unless it ended the sweep. */
  ghost predicate PointRan(p: Sweep, k: nat, depth: Word32, turns: seq<Turn>, ended: Status)
    requires Accepts(p)
  {
    && Depth(p, k) <= p.maxDepth && depth == Depth(p, k)
    && RunOf(PointConfig(p, k), turns).status == ended
    && (ended.Running? ==> RunOf(PointConfig(p, k), turns).completed == p.iterations)
  }

  /** dmaplane_qdepth_sweep: one run per depth from min by step, until the depth passes max, 32
      points are done, or a run fails. */
  method QdepthSweep(p: Sweep, initialized: bool, msgSize: nat, found: bool, bufSize: nat, turns: seq<seq<Turn>>)
    returns (answer: Answer, depths: seq<Word32>, ended: Status)
    requires |turns| >= MAX_SWEEP_POINTS && forall k :: 0 <= k < |turns| ==> |turns[k]| >= p.iterations
    ensures answer.Enodev? <==> !initialized
    ensures answer.Enoent? <==> (initialized && Accepts(p) && msgSize >= 1 && !found)
    ensures answer.Einval? <==> (initialized && (!Accepts(p) || msgSize == 0 || (found && msgSize > bufSize)))
    ensures answer.Accepted? <==>
      && initialized && found && 1 <= msgSize <= bufSize
      && 1 <= p.minDepth <= p.maxDepth <= 64 && p.step >= 1 && p.iterations >= 1
    ensures answer.Accepted? ==> 1 <= |depths| <= 32
    ensures answer.Accepted? ==> forall k :: 0 <= k < |depths| ==> depths[k] == p.minDepth + k * p.step <= p.maxDepth
    ensures answer.Accepted? ==> forall k :: 0 <= k < |depths| ==>
      PointRan(p, k, depths[k], turns[k], if k == |depths| - 1 then ended else Running)
    ensures answer.Accepted? && ended.Running? ==> |depths| == 32 || p.minDepth + |depths| * p.step > p.maxDepth
    ensures answer.Accepted? && (forall k :: 0 <= k < |turns| ==> OnlyReceivesFail(turns[k])) ==> ended.Running?
  {
    depths, ended := [], Running;
    if !initialized {
      return Enodev, depths, ended;
    }
    if !Accepts(p) || msgSize == 0 {
      return Einval, depths, ended;
    }
    if !found {
      return Enoent, depths, ended;
    }
    if msgSize > bufSize {
      return Einval, depths, ended;
    }
    answer := Accepted;
    depths, ended := SweepPoints(p, turns);
    var last := |depths| - 1;
    assert PointRan(p, last, depths[last], turns[last], ended);
    if forall k :: 0 <= k < |turns| ==> OnlyReceivesFail(turns[k]) {
      SweepGoesOn(PointConfig(p, last), turns[last]);
    }
  }

  /** Nothing fails but, perhaps, replenishes. */
  predicate OnlyReceivesFail(turns: seq<Turn>) {
    forall i :: 0 <= i < |turns| ==> !turns[i].sendFails && turns[i].poll.Success?
  }

  /** A failed replenish does not end a point of the sweep. */
  lemma {:induction false} SweepGoesOn(c: Config, turns: seq<Turn>)
    requires !c.fatal && c.qdepth >= 1 && OnlyReceivesFail(turns)
    ensures RunOf(c, turns).status.Running?
  {
    if turns != [] {
      var before, t := turns[..|turns| - 1], turns[|turns| - 1];
      SweepGoesOn(c, before);
      RunKeeps(c, before);
      BurstKeeps(c, RunOf(c, before), t.sendFails, t.sendsBefore);
    }
  }

  /** The loop over the points. */
  method SweepPoints(p: Sweep, turns: seq<seq<Turn>>) returns (depths: seq<Word32>, ended: Status)
    requires Accepts(p)
    requires |turns| >= MAX_SWEEP_POINTS && forall k :: 0 <= k < |turns| ==> |turns[k]| >= p.iterations
    ensures 1 <= |depths| <= MAX_SWEEP_POINTS
    ensures forall k :: 0 <= k < |depths| ==>
      PointRan(p, k, depths[k], turns[k], if k == |depths| - 1 then ended else Running)
    ensures ended.Running? ==> |depths| == MAX_SWEEP_POINTS || Depth(p, |depths|) > p.maxDepth
  {
    depths, ended := [], Running;
    var points := Points(p);
    PointInRange(p, points);
    if points > MAX_SWEEP_POINTS {
      points := MAX_SWEEP_POINTS;
    }
    for k := 0 to points
      invariant |depths| == k && ended.Running?
      invariant forall j :: 0 <= j < k ==> PointRan(p, j, depths[j], turns[j], Running)
    {
      var depth;
      depth, ended := SweepPoint(p, k, turns[k]);
      depths := depths + [depth];
      if !ended.Running? {
        return;
      }
    }
  }

  /** One depth of the sweep. */
  method SweepPoint(p: Sweep, k: nat, turns: seq<Turn>) returns (depth: Word32, ended: Status)
    requires Accepts(p) && k < Points(p) && |turns| >= p.iterations
    ensures PointRan(p, k, depth, turns, ended)
  {
    PointInRange(p, k);
    var c := PointConfig(p, k);
    depth := c.qdepth;
    var sent, completed, recvPosted;
    ended, sent, completed, recvPosted := PipelinedRun(c, turns);
  }
}
