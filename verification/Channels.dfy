/** One channel: concurrent submitters, one worker thread, concurrent consumers
    (driver/main.c).  Interleavings are sequences of atomic steps, one per lock region. */
module Channels {
  import opened Arithmetic
  import opened Wrappers
  import opened Rings

  /** The worker's processing: payload += 1 in 64 bits. */
  function Processed(e: Entry): Entry { e.(payload := Inc64(e.payload)) }

  function Inc64(n: Word64): Word64 { if n + 1 == U64 then 0 else n + 1 }

  /** done is what became of the first entries of from: each in its place, incremented once in 64
      bits, its flags untouched. */
  ghost predicate Incremented(done: seq<Entry>, from: seq<Entry>) {
    && |done| <= |from|
    && forall k :: 0 <= k < |done| ==> IncrementOf(done[k], from[k])
  }

  predicate IncrementOf(e: Entry, from: Entry) {
    e.payload == (from.payload + 1) % U64 && e.flags == from.flags
  }

  // ------------------------------------------------------------ abstract channel

  /** The channel as two bounded queues and a hand-over slot.  accepted and dequeued record
      what submit accepted and complete returned, each in lock order; held is the entry the
      worker has taken and processed, abandoned the one it dropped at shutdown; watermark is the
      occupancy statistic. */
  datatype Chan = Chan(sub: seq<Entry>, held: Option<Entry>, comp: seq<Entry>,
                       accepted: seq<Entry>, dequeued: seq<Entry>,
                       stopping: bool, exited: bool, abandoned: Option<Entry>, watermark: nat)

  const FRESH: Chan := Chan([], None, [], [], [], false, false, None, 0)

  datatype Action = Submit(e: Entry) | Take | Push | Complete | Stop | Abandon | Exit

  /** Submit is refused when the submission ring is full; a complete on an empty ring and a
      push to a full ring change nothing, and the worker tries again. */
  function Step(s: Chan, a: Action): Option<Chan> {
    match a
    case Submit(e) =>
      if |s.sub| == RING_SIZE then Some(s)
      else
        var n := |s.sub| + 1;
        Some(s.(sub := s.sub + [e], accepted := s.accepted + [e],
                watermark := if n > s.watermark then n else s.watermark))
    case Take =>
      if s.exited || s.held.Some? || s.sub == [] then None
      else Some(s.(sub := s.sub[1..], held := Some(Processed(s.sub[0]))))
    case Push =>
      if s.exited || s.held.None? then None
      else if |s.comp| == RING_SIZE then Some(s)
      else Some(s.(comp := s.comp + [s.held.value], held := None))
    case Complete =>
      if s.comp == [] then Some(s)
      else Some(s.(comp := s.comp[1..], dequeued := s.dequeued + [s.comp[0]]))
    case Stop => Some(s.(stopping := true))
    case Abandon =>
      if s.exited || !s.stopping || s.held.None? then None
      else Some(s.(held := None, exited := true, abandoned := s.held))
    case Exit =>
      if s.exited || !s.stopping || s.held.Some? then None
      else Some(s.(exited := true))
  }

  /** The entry in the worker's hand, or the one it dropped there. */
  function InHand(s: Chan): seq<Entry> {
    if s.held.Some? then [s.held.value] else if s.abandoned.Some? then [s.abandoned.value] else []
  }

  /** What consumers got, the completion ring and the worker's hand, end to end. */
  function PastWorker(s: Chan): seq<Entry> { s.dequeued + s.comp + InHand(s) }

  /** What every interleaving keeps: what has passed the worker and the submission ring are, end to
      end, the accepted entries, the former incremented. */
  ghost predicate Inv(s: Chan) {
    && |s.sub| <= RING_SIZE && |s.comp| <= RING_SIZE
    && |s.sub| <= s.watermark <= RING_SIZE
    && |PastWorker(s)| + |s.sub| == |s.accepted|
    && Incremented(PastWorker(s), s.accepted) && s.sub == s.accepted[|PastWorker(s)|..]
    && (s.abandoned.Some? ==> s.stopping && s.exited && s.held.None?)
  }

  lemma SubmitKeeps(s: Chan, e: Entry)
    requires Inv(s)
    ensures Inv(Step(s, Submit(e)).value)
  {
    if |s.sub| < RING_SIZE {
      var n := |PastWorker(s)|;
      assert (s.accepted + [e])[n..] == s.accepted[n..] + [e];
    }
  }

  lemma TakeKeeps(s: Chan)
    requires Inv(s) && Step(s, Take).Some?
    ensures Inv(Step(s, Take).value)
  {
    var n := |PastWorker(s)|;
    var s' := Step(s, Take).value;
    assert s.sub[0] == s.accepted[n];
    assert PastWorker(s') == PastWorker(s) + [Processed(s.sub[0])];
    assert s.accepted[n..][1..] == s.accepted[n + 1..];
  }

  lemma PushKeeps(s: Chan)
    requires Inv(s) && Step(s, Push).Some?
    ensures Inv(Step(s, Push).value)
  {
    assert PastWorker(Step(s, Push).value) == PastWorker(s);
  }

  lemma CompleteKeeps(s: Chan)
    requires Inv(s)
    ensures Inv(Step(s, Complete).value)
  {
    if s.comp != [] {
      assert s.comp == [s.comp[0]] + s.comp[1..];
      assert PastWorker(Step(s, Complete).value) == PastWorker(s);
    }
  }

  lemma StepKeeps(s: Chan, a: Action)
    requires Inv(s) && Step(s, a).Some?
    ensures Inv(Step(s, a).value)
  {
    match a
    case Submit(e) => SubmitKeeps(s, e);
    case Take => TakeKeeps(s);
    case Push => PushKeeps(s);
    case Complete => CompleteKeeps(s);
    case Stop =>
    case Abandon =>
    case Exit =>
  }

  /** The state after a list of atomic steps, if each of them is possible. */
  ghost function Exec(s: Chan, acts: seq<Action>): Option<Chan>
    decreases |acts|
  {
    if acts == [] then Some(s)
    else match Step(s, acts[0])
      case None => None
      case Some(s') => Exec(s', acts[1..])
  }

  lemma {:induction false} RunKeeps(s: Chan, acts: seq<Action>)
    requires Inv(s) && Exec(s, acts).Some?
    ensures Inv(Exec(s, acts).value)
    decreases |acts|
  {
    if acts != [] {
      var next := Step(s, acts[0]);
      StepKeeps(s, acts[0]);
      RunKeeps(next.value, acts[1..]);
    }
  }

  /** In every interleaving from a fresh channel, shutdown included: nothing is duplicated or
      reordered, nothing is missing but what the worker dropped from its hand, at most
      2 * 1024 + 1 accepted entries have not been dequeued, and what consumers got is a prefix, in
      order, of what was accepted, each payload one higher and its flags as submitted. */
  lemma EveryInterleaving(acts: seq<Action>)
    requires Exec(FRESH, acts).Some?
    ensures var s := Exec(FRESH, acts).value; var done := s.dequeued + s.comp + InHand(s);
      && |done| + |s.sub| == |s.accepted| && s.sub == s.accepted[|done|..]
      && |s.accepted| - |s.dequeued| <= 2049
      && (forall k :: 0 <= k < |done| ==>
            done[k].payload == (s.accepted[k].payload + 1) % U64 && done[k].flags == s.accepted[k].flags)
      && (forall k :: 0 <= k < |s.dequeued| ==>
            s.dequeued[k].payload == (s.accepted[k].payload + 1) % U64 && s.dequeued[k].flags == s.accepted[k].flags)
  {
    assert Inv(FRESH);
    RunKeeps(FRESH, acts);
    var s := Exec(FRESH, acts).value;
    var done := PastWorker(s);
    forall k | 0 <= k < |done|
      ensures done[k].payload == (s.accepted[k].payload + 1) % U64 && done[k].flags == s.accepted[k].flags
    {
      assert IncrementOf(done[k], s.accepted[k]);
    }
    assert s.dequeued == done[..|s.dequeued|];
  }

  /** The greatest number of entries the submission ring holds in a run. */
  ghost function Peak(s: Chan, acts: seq<Action>): nat
    decreases |acts|
  {
    if acts == [] || Step(s, acts[0]).None? then |s.sub|
    else
      var later := Peak(Step(s, acts[0]).value, acts[1..]);
      if later > |s.sub| then later else |s.sub|
  }

  /** The high watermark is the greatest occupancy reached, no more and no less. */
  lemma {:induction false} WatermarkIsPeak(acts: seq<Action>)
    requires Exec(FRESH, acts).Some?
    ensures Exec(FRESH, acts).value.watermark == Peak(FRESH, acts)
  {
    PeakFrom(FRESH, acts);
  }

  lemma {:induction false} PeakFrom(s: Chan, acts: seq<Action>)
    requires |s.sub| <= s.watermark && Exec(s, acts).Some?
    ensures Exec(s, acts).value.watermark == if Peak(s, acts) > s.watermark then Peak(s, acts) else s.watermark
    decreases |acts|
  {
    if acts != [] {
      PeakFrom(Step(s, acts[0]).value, acts[1..]);
    }
  }

  /** The worker drops an entry only if a stop was requested. */
  lemma {:induction false} LossNeedsStop(s: Chan, acts: seq<Action>)
    requires s.abandoned.None? && Exec(s, acts).Some? && Exec(s, acts).value.abandoned.Some?
    ensures s.stopping || Stop in acts
    decreases |acts|
  {
    if acts != [] {
      var next := Step(s, acts[0]).value;
      if next.abandoned.Some? {
        assert acts[0].Abandon?;
      } else {
        LossNeedsStop(next, acts[1..]);
      }
    }
  }

  /** The worker ends only if a stop was requested, and then nothing more passes it. */
  lemma {:induction false} ExitNeedsStop(s: Chan, acts: seq<Action>)
    requires Exec(s, acts).Some?
    ensures !s.exited && Exec(s, acts).value.exited ==> s.stopping || Stop in acts
    ensures s.exited ==> |PastWorker(Exec(s, acts).value)| == |PastWorker(s)| && s.sub <= Exec(s, acts).value.sub
    decreases |acts|
  {
    if acts != [] {
      var next := Step(s, acts[0]).value;
      if s.exited {
        assert next.exited && |PastWorker(next)| == |PastWorker(s)| && s.sub <= next.sub;
      }
      if !s.exited && next.exited {
        assert acts[0].Abandon? || acts[0].Exit?;
      }
      ExitNeedsStop(next, acts[1..]);
    }
  }

  // ------------------------------------------------------------- the C channel

  /** The rings in memory and the worker's local entry; the logs are specification only. */
  class Channel {
    const sub: Ring
    const comp: Ring
    var held: Option<Entry>
    var stopping: bool
    var exited: bool
    var watermark: nat
    ghost var abandoned: Option<Entry>
    ghost var accepted: seq<Entry>
    ghost var dequeued: seq<Entry>

    ghost predicate Valid()
      reads this, sub, comp
    {
      sub.Valid() && comp.Valid() && sub != comp && sub.entries != comp.entries
    }

    ghost function Abs(): Chan
      requires Valid()
      reads this, sub, comp, sub.entries, comp.entries
    {
      Chan(sub.Contents(), held, comp.Contents(), accepted, dequeued, stopping, exited, abandoned, watermark)
    }

    constructor ()
      ensures Valid() && Abs() == FRESH
    {
      sub := new Ring();
      comp := new Ring();
      held, stopping, exited, watermark := None, false, false, 0;
      abandoned, accepted, dequeued := None, [], [];
    }

    /** dmaplane_ioctl_submit under sub_ring.lock; false is -ENOSPC. */
    method Submit(e: Entry) returns (ok: bool)
      requires Valid()
      modifies this, sub`head, sub.entries
      ensures Valid()
      ensures Some(Abs()) == Step(old(Abs()), Action.Submit(e))
      ensures ok <==> |old(sub.Contents())| < 1024
    {
      ok := sub.Push(e);
      if ok {
        accepted := accepted + [e];
        var occupancy := sub.Count();
        sub.CountsAreLengths();
        if occupancy > watermark {
          watermark := occupancy;
        }
      }
    }

    /** The worker's dequeue under sub_ring.lock, with the authoritative empty check. */
    method WorkerTake() returns (got: bool)
      requires Valid() && !exited && held.None?
      modifies this, sub`tail
      ensures Valid()
      ensures got <==> old(sub.Contents()) != []
      ensures if got then Some(Abs()) == Step(old(Abs()), Take) else Abs() == old(Abs())
      ensures got ==> held.Some? && IncrementOf(held.value, old(sub.Contents())[0])
    {
      var r := sub.Pop();
      got := r.Some?;
      if got {
        held := Some(Processed(r.value));
      }
    }

    /** One turn of the push loop under comp_ring.lock; false means full, yield and retry. */
    method WorkerPush() returns (ok: bool)
      requires Valid() && !exited && held.Some?
      modifies this, comp`head, comp.entries
      ensures Valid()
      ensures Some(Abs()) == Step(old(Abs()), Push)
      ensures ok <==> held.None?
    {
      ok := comp.Push(held.value);
      if ok {
        held := None;
      }
    }

    /** dmaplane_ioctl_complete under comp_ring.lock; None is -EAGAIN. */
    method Complete() returns (r: Option<Entry>)
      requires Valid()
      modifies this, comp`tail
      ensures Valid()
      ensures Some(Abs()) == Step(old(Abs()), Action.Complete)
      ensures r.Some? ==> dequeued == old(dequeued) + [r.value]
      ensures r.None? ==> Abs() == old(Abs()) && old(comp.Contents()) == []
    {
      r := comp.Pop();
      if r.Some? {
        dequeued := dequeued + [r.value];
      }
    }

    method RequestStop()
      requires Valid()
      modifies this
      ensures Valid() && Some(Abs()) == Step(old(Abs()), Stop)
    {
      stopping := true;
    }

    /** The completion ring stayed full while stopping: the entry in hand is dropped. */
    method WorkerAbandon()
      requires Valid() && !exited && stopping && held.Some?
      modifies this
      ensures Valid() && Some(Abs()) == Step(old(Abs()), Abandon)
    {
      abandoned := held;
      held := None;
      exited := true;
    }

    method WorkerExit()
      requires Valid() && !exited && stopping && held.None?
      modifies this
      ensures Valid() && Some(Abs()) == Step(old(Abs()), Exit)
    {
      exited := true;
    }
  }
}
