/** RDMA resources: setup, peer queue pair, memory regions and teardown
    (driver/rdma_engine.c, driver/main.c). */
module RdmaEngine {
  import opened Arithmetic

  const MAX_MRS: nat := 64

  /** Queue pair states, section 10.3.1 of the InfiniBand Architecture Specification Volume 1. */
  datatype QpState = Reset | Init | Rtr | Rts | Error

  /** A live verbs object, with the objects it was created on. */
  datatype Obj =
    | Device
    | Pd(dev: nat)
    | Cq(dev: nat)
    | Qp(pd: nat, cq: nat, state: QpState)
    | FastMr(pd: nat, sgt: nat)
    | Mapping(dev: nat)

  function Needs(o: Obj): set<nat> {
    match o
    case Device => {}
    case Pd(dev) => {dev}
    case Cq(dev) => {dev}
    case Qp(pd, cq, _) => {pd, cq}
    case FastMr(pd, _) => {pd}
    case Mapping(dev) => {dev}
  }

  /** Nothing live was created on h. */
  ghost predicate Unneeded(live: map<nat, Obj>, h: nat) {
    forall x :: x in live ==> h !in Needs(live[x])
  }

  /** What every live object was created on is live. */
  ghost predicate Closed(live: map<nat, Obj>) {
    forall h, n :: h in live && n in Needs(live[h]) ==> n in live
  }

  /** A live object keeps what it was created on from being released: a queue pair its domain and
      its completion queue, a fast-reg MR its domain, the others but the device itself their device. */
  lemma {:induction false} StandsOn(live: map<nat, Obj>, x: nat)
    requires x in live
    ensures match live[x]
      case Device => true
      case Pd(dev) => !Unneeded(live, dev)
      case Cq(dev) => !Unneeded(live, dev)
      case Qp(pd, cq, _) => !Unneeded(live, pd) && !Unneeded(live, cq)
      case FastMr(pd, _) => !Unneeded(live, pd)
      case Mapping(dev) => !Unneeded(live, dev)
  {
  }

  /** h is a mapping that a live fast-reg MR was built on: its page list. */
  ghost predicate Mapped(live: map<nat, Obj>, h: nat) {
    h in live && live[h].Mapping? && exists x :: x in live && live[x].FastMr? && live[x].sgt == h
  }

  /** Every live fast-reg MR was built on a live mapping. */
  ghost predicate MrsMapped(live: map<nat, Obj>) {
    forall x :: x in live && live[x].FastMr? ==> live[x].sgt in live
  }

  predicate Legal(from: QpState, to: QpState) {
    || to.Error?
    || (from.Reset? && to.Init?) || (from.Init? && to.Init?) || (from.Init? && to.Rtr?)
    || (from.Rtr? && to.Rts?) || (from.Rts? && to.Rts?)
  }

  function Stage(s: QpState): nat {
    match s
    case Reset => 0
    case Init => 1
    case Rtr => 2
    case Rts => 3
    case Error => 4
  }

  /** A transition towards sending never skips a state and never goes back; besides, INIT and RTS may
      be set again, and the error state is always open and never left. */
  lemma {:induction false} LegalStages(from: QpState, to: QpState)
    ensures !to.Error? ==>
      (Legal(from, to) <==> (Stage(to) == Stage(from) + 1 || (to == from && (to.Init? || to.Rts?))))
    ensures to.Error? ==> Legal(from, to)
  {
  }

  /** So a queue pair that starts in RESET has been through INIT and RTR when it is in RTS. */
  lemma {:induction false} RtsThroughRtr(path: seq<QpState>)
    requires path != [] && path[0].Reset? && forall i :: 0 <= i < |path| - 1 ==> Legal(path[i], path[i + 1])
    ensures path[|path| - 1].Rtr? || path[|path| - 1].Rts? ==> Init in path
    ensures path[|path| - 1].Rts? ==> Rtr in path
  {
    var n := |path| - 1;
    if n > 0 {
      RtsThroughRtr(path[..n]);
      LegalStages(path[n - 1], path[n]);
      assert Legal(path[n - 1], path[n - 1 + 1]);
      assert path[..n][n - 1] == path[n - 1] && path[n - 1] in path[..n];
      assert forall q :: q in path[..n] ==> q in path;
    }
  }

  /** struct dmaplane_rdma_ctx: 0 is NULL. */
  datatype Ctx = Ctx(ibDev: nat, pd: nat, cqA: nat, cqB: nat, qpA: nat, qpB: nat,
                     initialized: bool, cqPeer: nat, qpPeer: nat, peerConnected: bool)

  const NO_CTX: Ctx := Ctx(0, 0, 0, 0, 0, 0, false, 0, 0, false)

  datatype MrSlot = MrSlot(inUse: bool, id: nat, mr: nat, sgt: nat)

  /** Registered for remote access: with a fast-reg MR of its own. */
  predicate Remote(m: MrSlot) { m.inUse && m.mr != 0 }

  predicate AnyRemote(mrs: seq<MrSlot>, n: nat)
    requires n <= |mrs|
  {
    exists i :: 0 <= i < n && Remote(mrs[i])
  }

  lemma {:induction false} OneMoreSlot(mrs: seq<MrSlot>, n: nat)
    requires n < |mrs|
    ensures AnyRemote(mrs, n + 1) <==> AnyRemote(mrs, n) || Remote(mrs[n])
  {
  }

  /** Only slot i differs: what is remote apart from it stays so. */
  lemma {:induction false} ChangedSlot(was: seq<MrSlot>, now: seq<MrSlot>, i: nat)
    requires |was| == |now| == MAX_MRS && i < MAX_MRS && now == was[i := now[i]]
    requires Remote(was[i]) ==> !Remote(now[i])
    ensures AnyRemote(now, MAX_MRS) || Remote(was[i]) <==> AnyRemote(was, MAX_MRS) || Remote(now[i])
  {
    assert forall j :: 0 <= j < MAX_MRS && j != i ==> now[j] == was[j];
  }

  const NO_MR: MrSlot := MrSlot(false, 0, 0, 0)

  // ------------------------------------------------------------------ invariant

  predicate IsQp(live: map<nat, Obj>, q: nat, pd: nat, cq: nat) {
    q in live && live[q].Qp? && live[q].pd == pd && live[q].cq == cq
  }

  /** The loopback pair is up and both its queue pairs are in RTS. */
  predicate Core(c: Ctx, live: map<nat, Obj>) {
    && c.ibDev in live && live[c.ibDev].Device?
    && c.pd in live && live[c.pd] == Pd(c.ibDev)
    && c.cqA in live && live[c.cqA] == Cq(c.ibDev)
    && c.cqB in live && live[c.cqB] == Cq(c.ibDev) && c.cqA != c.cqB
    && IsQp(live, c.qpA, c.pd, c.cqA) && live[c.qpA].state.Rts?
    && IsQp(live, c.qpB, c.pd, c.cqB) && live[c.qpB].state.Rts?
  }

  /** The peer queue pair exists with its own completion queue, or neither does; connected
      means RTS. */
  predicate Peer(c: Ctx, live: map<nat, Obj>) {
    && (c.qpPeer == 0 <==> c.cqPeer == 0)
    && (c.qpPeer != 0 ==>
        && IsQp(live, c.qpPeer, c.pd, c.cqPeer) && c.qpPeer != c.qpA && c.qpPeer != c.qpB
        && c.cqPeer in live && live[c.cqPeer] == Cq(c.ibDev) && c.cqPeer != c.cqA && c.cqPeer != c.cqB)
    && (c.peerConnected ==> c.qpPeer != 0 && live[c.qpPeer].state.Rts?)
  }

  function Handles(c: Ctx): set<nat> {
    {c.ibDev, c.pd, c.cqA, c.cqB, c.qpA, c.qpB} + if c.qpPeer == 0 then {} else {c.cqPeer, c.qpPeer}
  }

  /** Slot i of the MR table owns its mapping and, for remote access, its fast-reg MR. */
  ghost predicate MrOwns(c: Ctx, live: map<nat, Obj>, owner: map<nat, nat>, i: nat, m: MrSlot) {
    && m.sgt in owner && owner[m.sgt] == i && m.sgt in live && live[m.sgt] == Mapping(c.ibDev)
    && (m.mr != 0 ==> m.mr in owner && owner[m.mr] == i && m.mr in live && live[m.mr] == FastMr(c.pd, m.sgt))
  }

  predicate Held(m: MrSlot, h: nat) { m.inUse && (h == m.sgt || h == m.mr) }

  ghost predicate MrTable(c: Ctx, live: map<nat, Obj>, mrs: seq<MrSlot>, owner: map<nat, nat>) {
    && (forall h :: h in owner ==> h in live && owner[h] < |mrs| && Held(mrs[owner[h]], h))
    && (forall i :: 0 <= i < |mrs| && mrs[i].inUse ==> MrOwns(c, live, owner, i, mrs[i]))
  }

  /** Live objects are exactly those the context and the MR table name: none missing, none
      leaked.  Uninitialised means nothing at all. */
  ghost predicate Inv(c: Ctx, live: map<nat, Obj>, mrs: seq<MrSlot>, owner: map<nat, nat>) {
    && MrTable(c, live, mrs, owner)
    && (c.initialized ==>
        Core(c, live) && Peer(c, live) && (forall h :: h in live <==> h in Handles(c) || h in owner))
    && (!c.initialized ==> c == NO_CTX && live == map[] && owner == map[])
    && 0 !in live
  }

  // ---------------------------------------------------------------------- verbs

  datatype Status = Ok | Ebusy | Enodev | Einval | Enoent | Efailed

  class Verbs {
    var live: map<nat, Obj>
    var next: nat
    /** Some mapping was released under a fast-reg MR built on it. */
    ghost var pulled: bool

    ghost predicate Fresh()
      reads this
    {
      next >= 1 && forall h :: h in live ==> h < next
    }

    constructor ()
      ensures live == map[] && Fresh() && !pulled
    {
      live, next, pulled := map[], 1, false;
    }

    /** Any of the allocating verbs; 0 is failure. */
    method Acquire(o: Obj, ok: bool) returns (h: nat)
      requires Fresh() && Needs(o) <= live.Keys
      modifies this`live, this`next
      ensures Fresh()
      ensures ok ==> h != 0 && h !in old(live) && live == old(live)[h := o]
      ensures !ok ==> h == 0 && live == old(live)
    {
      if !ok {
        return 0;
      }
      h := next;
      live, next := live[h := o], next + 1;
    }

    /** Any of the releasing verbs: nothing may still be standing on the object. */
    method Release(h: nat)
      requires Fresh() && h in live && Unneeded(live, h)
      modifies this`live, this`pulled
      ensures Fresh() && live == old(live) - {h}
      ensures pulled == (old(pulled) || Mapped(old(live), h))
    {
      pulled := pulled || Mapped(live, h);
      live := live - {h};
    }

    /** ib_destroy_qp of a queue pair that may have work outstanding: it is in the error state, which
        flushes that work, unless the move there was refused. */
    method ReleaseFlushed(q: nat, ghost errOk: bool)
      requires Fresh() && q in live && live[q].Qp? && Unneeded(live, q)
      requires errOk ==> live[q].state.Error?
      modifies this`live, this`pulled
      ensures Fresh() && live == old(live) - {q} && pulled == old(pulled)
    {
      Release(q);
    }

    /** ib_modify_qp: an illegal transition fails, any other may; a failed one changes nothing. */
    method ModifyQp(q: nat, to: QpState, ok: bool) returns (done: bool)
      requires Fresh() && q in live && live[q].Qp?
      modifies this`live
      ensures Fresh() && (done <==> ok && Legal(old(live[q]).state, to))
      ensures live == if done then old(live)[q := old(live[q]).(state := to)] else old(live)
    {
      done := ok && Legal(live[q].state, to);
      if done {
        live := live[q := live[q].(state := to)];
      }
    }
  }

  // --------------------------------------------------------------------- engine

  /** Which acquisition of a setup fails, if any; connect has one entry per transition. */
  datatype SetupEnv = SetupEnv(device: bool, port: bool, gid: bool, pd: bool,
                               cqA: bool, cqB: bool, qpA: bool, qpB: bool,
                               dmac: bool, connect: seq<bool>)

  /** How far a queue pair in RESET gets: INIT, then RTR, then RTS. */
  function Climb(ok: seq<bool>): QpState
    requires |ok| >= 3
  {
    if !ok[0] then Reset else if !ok[1] then Init else if !ok[2] then Rtr else Rts
  }

  /** The pair comes up: the address resolves and all six transitions are granted. */
  predicate Connects(env: SetupEnv)
    requires |env.connect| >= 6
  {
    env.dmac && Climb(env.connect[..3]).Rts? && Climb(env.connect[3..]).Rts?
  }

  lemma {:induction false} AllConnect(env: SetupEnv)
    requires |env.connect| >= 6
    ensures Connects(env) <==> env.dmac && forall i :: 0 <= i < 6 ==> env.connect[i]
  {
    var a, b := env.connect[..3], env.connect[3..];
    assert a[0] == env.connect[0] && a[1] == env.connect[1] && a[2] == env.connect[2];
    assert b[0] == env.connect[3] && b[1] == env.connect[4] && b[2] == env.connect[5];
  }

  /** Nothing setup asks for is refused. */
  predicate Granted(env: SetupEnv)
    requires |env.connect| >= 6
  {
    && env.device && env.port && env.gid && env.pd && env.cqA && env.cqB && env.qpA && env.qpB
    && Connects(env)
  }

  /** Queue pair q in another state. */
  function Moved(live: map<nat, Obj>, q: nat, state: QpState): map<nat, Obj>
    requires q in live && live[q].Qp?
  {
    With(live, q, live[q].(state := state))
  }

  /** RESET to INIT to RTR to RTS, as far as the transitions go. */
  method BringUp(v: Verbs, q: nat, ok: seq<bool>) returns (done: bool)
    requires v.Fresh() && q in v.live && v.live[q].Qp? && v.live[q].state.Reset? && |ok| >= 3
    modifies v`live
    ensures v.Fresh() && v.live == Moved(old(v.live), q, Climb(ok))
    ensures done <==> Climb(ok).Rts?
  {
    done := v.ModifyQp(q, Init, ok[0]);
    if done {
      done := v.ModifyQp(q, Rtr, ok[1]);
    }
    if done {
      done := v.ModifyQp(q, Rts, ok[2]);
    }
  }

  /** A mapping and, unless mr is 0, the fast-reg MR built on it. */
  function Added(live: map<nat, Obj>, dev: nat, pd: nat, sgt: nat, mr: nat): map<nat, Obj> {
    With(if mr != 0 then With(live, mr, FastMr(pd, sgt)) else live, sgt, Mapping(dev))
  }

  function With(live: map<nat, Obj>, h: nat, o: Obj): map<nat, Obj> { live[h := o] }

  /** connect_loopback_qps: QP-A all the way, then QP-B. */
  method ConnectPair(v: Verbs, qpA: nat, qpB: nat, env: SetupEnv) returns (ok: bool)
    requires v.Fresh() && |env.connect| >= 6 && qpA in v.live && qpB in v.live && qpA != qpB
    requires v.live[qpA].Qp? && v.live[qpA].state.Reset? && v.live[qpB].Qp? && v.live[qpB].state.Reset?
    modifies v`live
    ensures v.Fresh() && (ok <==> Connects(env))
    ensures var a := if env.dmac then Climb(env.connect[..3]) else Reset;
      var b := if a.Rts? then Climb(env.connect[3..]) else Reset;
      v.live == Moved(Moved(old(v.live), qpA, a), qpB, b)
  {
    ok := env.dmac;
    if ok {
      ok := BringUp(v, qpA, env.connect[..3]);
    }
    if ok {
      ok := BringUp(v, qpB, env.connect[3..]);
    }
  }

  /** QP-B beside QP-A, both connected; or neither change. */
  method SetupQpB(v: Verbs, pd: nat, cqB: nat, qpA: nat, env: SetupEnv) returns (qpB: nat)
    requires v.Fresh() && |env.connect| >= 6
    requires pd in v.live && cqB in v.live && !v.live[cqB].Qp? && !v.live[pd].Qp?
    requires qpA in v.live && v.live[qpA].Qp? && v.live[qpA].state.Reset? && Unneeded(v.live, qpA) && Closed(v.live)
    modifies v
    ensures v.pulled == old(v.pulled) && (qpB != 0 <==> env.qpB && Connects(env))
    ensures v.Fresh() && qpA in v.live && v.live[qpA].Qp?
    ensures qpB == 0 ==> v.live == With(old(v.live), qpA, old(v.live[qpA]).(state := v.live[qpA].state))
    ensures qpB != 0 ==>
      && qpB !in old(v.live)
      && v.live == With(With(old(v.live), qpA, old(v.live[qpA]).(state := Rts)), qpB, Qp(pd, cqB, Rts))
  {
    qpB := v.Acquire(Qp(pd, cqB, Reset), env.qpB);
    if qpB == 0 {
      return;
    }
    ghost var was := old(v.live);
    var ok := ConnectPair(v, qpA, qpB, env);
    if ok {
      return;
    }
    QpBUndone(was, pd, cqB, qpA, qpB, v.live[qpA].state, v.live[qpB].state);
    v.Release(qpB);
    qpB := 0;
  }

  /** Giving up QP-B, wherever the pair got to, leaves QP-A's state the only change. */
  lemma {:induction false} QpBUndone(was: map<nat, Obj>, pd: nat, cqB: nat, qpA: nat, qpB: nat, a: QpState, b: QpState)
    requires qpA in was && was[qpA].Qp? && qpB !in was && pd in was && cqB in was && Closed(was)
    ensures var live := Moved(Moved(With(was, qpB, Qp(pd, cqB, Reset)), qpA, a), qpB, b);
      live - {qpB} == Moved(was, qpA, a) && Unneeded(live, qpB)
  {
  }

  /** The two queue pairs of setup and their connection: both, or neither. */
  method SetupPair(v: Verbs, pd: nat, cqA: nat, cqB: nat, env: SetupEnv) returns (qpA: nat, qpB: nat)
    requires v.Fresh() && |env.connect| >= 6 && pd in v.live && cqA in v.live && cqB in v.live
    requires (forall h :: h in v.live ==> !v.live[h].Qp?) && Closed(v.live)
    modifies v
    ensures v.pulled == old(v.pulled) && (qpB != 0 <==> env.qpA && env.qpB && Connects(env))
    ensures v.Fresh() && (qpB == 0 ==> v.live == old(v.live))
    ensures qpB != 0 ==>
      && qpA != 0 && qpA != qpB && qpA !in old(v.live) && qpB !in old(v.live)
      && v.live == With(With(old(v.live), qpA, Qp(pd, cqA, Rts)), qpB, Qp(pd, cqB, Rts))
  {
    ghost var was := v.live;
    qpB := 0;
    qpA := v.Acquire(Qp(pd, cqA, Reset), env.qpA);
    if qpA == 0 {
      return;
    }
    qpB := SetupQpB(v, pd, cqB, qpA, env);
    if qpB != 0 {
      return;
    }
    v.Release(qpA);
    assert v.live == was;
  }

  /** Completion queues and queue pairs under an existing protection domain: all, or none. */
  method SetupQueues(v: Verbs, dev: nat, pd: nat, env: SetupEnv)
    returns (ok: bool, cqA: nat, cqB: nat, qpA: nat, qpB: nat)
    requires v.Fresh() && |env.connect| >= 6 && dev != pd && v.live == map[dev := Device, pd := Pd(dev)]
    modifies v
    ensures v.pulled == old(v.pulled)
    ensures ok <==> env.cqA && env.cqB && env.qpA && env.qpB && Connects(env)
    ensures v.Fresh() && (!ok ==> v.live == old(v.live))
    ensures ok ==>
      && |{dev, pd, cqA, cqB, qpA, qpB}| == 6 && 0 !in {cqA, cqB, qpA, qpB}
      && v.live == With(With(With(With(old(v.live), cqA, Cq(dev)), cqB, Cq(dev)),
                             qpA, Qp(pd, cqA, Rts)), qpB, Qp(pd, cqB, Rts))
  {
    ghost var l2 := v.live;
    ok, cqB, qpA, qpB := false, 0, 0, 0;
    cqA := v.Acquire(Cq(dev), env.cqA);
    if cqA == 0 {
      return;
    }
    ghost var l3 := v.live;
    label errDestroyCqA: {
      cqB := v.Acquire(Cq(dev), env.cqB);
      if cqB == 0 {
        break errDestroyCqA;
      }
      qpA, qpB := SetupPair(v, pd, cqA, cqB, env);
      if qpB != 0 {
        ok := true;
        return;
      }
      v.Release(cqB);
      assert v.live == l3;
    }
    v.Release(cqA);
    assert v.live == l2;
  }

  /** What rdma_engine_setup answers. */
  function SetupStatus(c: Ctx, env: SetupEnv): Status
    requires |env.connect| >= 6
  {
    if c.initialized then Ebusy else if !env.device then Enodev else if Granted(env) then Ok else Efailed
  }

  /** rdma_engine_setup. */
  method Setup(v: Verbs, c: Ctx, env: SetupEnv) returns (status: Status, c': Ctx)
    requires v.Fresh() && |env.connect| >= 6 && (!c.initialized ==> c == NO_CTX && v.live == map[])
    modifies v
    ensures v.pulled == old(v.pulled) && v.Fresh()
    ensures status == SetupStatus(c, env)
    ensures c.initialized ==> c' == c && v.live == old(v.live)
    ensures !c.initialized && !status.Ok? ==> c' == NO_CTX && v.live == map[]
    ensures !c.initialized && status.Ok? ==>
      && c'.initialized && Core(c', v.live) && c'.qpPeer == 0 && c'.cqPeer == 0 && !c'.peerConnected
      && (forall h :: h in v.live <==> h in Handles(c')) && 0 !in v.live
  {
    c' := c;
    if c.initialized {
      return Ebusy, c;
    }
    var dev := v.Acquire(Device, env.device);
    if dev == 0 {
      return Enodev, c;
    }
    ghost var l1 := v.live;
    label errPutDev: {
      if !env.port || !env.gid {
        break errPutDev;
      }
      var pd := v.Acquire(Pd(dev), env.pd);
      if pd == 0 {
        break errPutDev;
      }
      var ok, cqA, cqB, qpA, qpB := SetupQueues(v, dev, pd, env);
      if ok {
        c' := Ctx(dev, pd, cqA, cqB, qpA, qpB, true, 0, 0, false);
        return Ok, c';
      }
      v.Release(pd);
      assert v.live == l1;
    }
    v.Release(dev);
    assert v.live == map[];
    status := Efailed;
  }

  // ------------------------------------------------- what the invariant gives

  /** Nothing is ever live on something that is gone. */
  lemma {:induction false} InvCloses(c: Ctx, live: map<nat, Obj>, mrs: seq<MrSlot>, owner: map<nat, nat>)
    requires Inv(c, live, mrs, owner)
    ensures Closed(live) && MrsMapped(live)
  {
    forall x | x in live && live[x].FastMr? ensures live[x].sgt in live {
      if x in owner {
        assert MrOwns(c, live, owner, owner[x], mrs[owner[x]]);
      }
    }
    forall h, n | h in live && n in Needs(live[h]) ensures n in live {
      if h in owner {
        assert MrOwns(c, live, owner, owner[h], mrs[owner[h]]);
      }
    }
  }

  /** Nothing stands on the peer queue pair, and only it on the peer completion queue. */
  lemma {:induction false} PeerLast(c: Ctx, live: map<nat, Obj>, mrs: seq<MrSlot>, owner: map<nat, nat>)
    requires Inv(c, live, mrs, owner) && c.qpPeer != 0
    ensures Unneeded(live, c.qpPeer) && Unneeded(live - {c.qpPeer}, c.cqPeer) && c.cqPeer != c.qpPeer
  {
    forall x | x in live ensures c.qpPeer !in Needs(live[x]) && (x != c.qpPeer ==> c.cqPeer !in Needs(live[x])) {
      if x in owner {
        assert MrOwns(c, live, owner, owner[x], mrs[owner[x]]);
      }
    }
  }

  /** An object nobody needs, neither named by the context nor new, leaves the rest as it was. */
  lemma {:induction false} MrLast(c: Ctx, live: map<nat, Obj>, mrs: seq<MrSlot>, owner: map<nat, nat>, h: nat)
    requires Inv(c, live, mrs, owner) && h in live && (live[h].Mapping? || live[h].FastMr? || live[h].Qp?)
    ensures Unneeded(live, h)
  {
    forall x | x in live ensures h !in Needs(live[x]) {
      if x in owner {
        assert MrOwns(c, live, owner, owner[x], mrs[owner[x]]);
      }
    }
  }

  /** A slot's mapping is the page list of a live fast-reg MR exactly for remote access. */
  lemma {:induction false} PulledIff(c: Ctx, live: map<nat, Obj>, mrs: seq<MrSlot>, owner: map<nat, nat>, i: nat)
    requires Inv(c, live, mrs, owner) && i < |mrs| && mrs[i].inUse
    ensures Mapped(live, mrs[i].sgt) <==> mrs[i].mr != 0
  {
    assert MrOwns(c, live, owner, i, mrs[i]);
    if Mapped(live, mrs[i].sgt) {
      var x :| x in live && live[x].FastMr? && live[x].sgt == mrs[i].sgt;
      assert x in owner;
      assert MrOwns(c, live, owner, owner[x], mrs[owner[x]]);
    }
  }

  /** What a slot names is live, and nothing stands on it. */
  lemma {:induction false} MrObjects(c: Ctx, live: map<nat, Obj>, mrs: seq<MrSlot>, owner: map<nat, nat>, i: nat)
    requires Inv(c, live, mrs, owner) && i < |mrs| && mrs[i].inUse
    ensures OnlyHeld(live, mrs[i].sgt) && live[mrs[i].sgt].Mapping?
    ensures mrs[i].mr != 0 ==> OnlyHeld(live, mrs[i].mr) && live[mrs[i].mr].FastMr?
  {
    assert MrOwns(c, live, owner, i, mrs[i]);
    MrLast(c, live, mrs, owner, mrs[i].sgt);
    if mrs[i].mr != 0 {
      MrLast(c, live, mrs, owner, mrs[i].mr);
    }
  }

  ghost predicate OnlyHeld(live: map<nat, Obj>, h: nat) { h in live && Unneeded(live, h) }

  /** An MR's mapping, then its fast-reg MR if it has one. */
  method DestroyMr(v: Verbs, sgt: nat, mr: nat)
    requires v.Fresh() && 0 !in v.live && OnlyHeld(v.live, sgt) && v.live[sgt].Mapping?
    requires mr != 0 ==> OnlyHeld(v.live, mr) && v.live[mr].FastMr?
    modifies v`live, v`pulled
    ensures v.Fresh() && v.live == old(v.live) - {sgt, mr}
    ensures v.pulled == (old(v.pulled) || Mapped(old(v.live), sgt))
  {
    ghost var was := v.live;
    v.Release(sgt);
    if mr != 0 {
      v.Release(mr);
    }
    assert v.live == was - {sgt, mr};
  }

  /** The peer queue pair to the error state and away, then its completion queue. */
  method DestroyPeer(v: Verbs, qp: nat, cq: nat, errOk: bool)
    requires v.Fresh() && OnlyHeld(v.live, qp) && v.live[qp].Qp? && qp != cq
    requires OnlyHeld(v.live - {qp}, cq) && v.live[cq].Cq?
    modifies v`live, v`pulled
    ensures v.Fresh() && v.live == old(v.live) - {qp, cq} && v.pulled == old(v.pulled)
  {
    ghost var was := v.live;
    var done := v.ModifyQp(qp, Error, errOk);
    QpsNeededByNone(was, v.live, qp);
    v.ReleaseFlushed(qp, errOk);
    assert v.live == was - {qp};
    v.Release(cq);
    assert v.live == was - {qp, cq};
  }

  // --------------------------------------------------------------------- engine

  /** The peer's completion queue and its queue pair in INIT: both, or neither. */
  method MakePeer(v: Verbs, dev: nat, pd: nat, cqOk: bool, qpOk: bool, initOk: bool, gidOk: bool)
    returns (cq: nat, qp: nat)
    requires v.Fresh() && Closed(v.live) && dev in v.live && pd in v.live
    modifies v
    ensures v.pulled == old(v.pulled) && (qp != 0 <==> cqOk && qpOk && initOk && gidOk)
    ensures v.Fresh() && (qp == 0 ==> v.live == old(v.live))
    ensures qp != 0 ==>
      && cq != 0 && cq != qp && cq !in old(v.live) && qp !in old(v.live)
      && v.live == With(With(old(v.live), cq, Cq(dev)), qp, Qp(pd, cq, Init))
  {
    ghost var was := v.live;
    qp := 0;
    cq := v.Acquire(Cq(dev), cqOk);
    if cq == 0 {
      return;
    }
    ghost var l1 := v.live;
    label errFreeCq: {
      qp := v.Acquire(Qp(pd, cq, Reset), qpOk);
      if qp == 0 {
        break errFreeCq;
      }
      var ok := v.ModifyQp(qp, Init, initOk);
      if ok && gidOk {
        assert v.live == With(l1, qp, Qp(pd, cq, Init));
        return;
      }
      v.Release(qp);
      qp := 0;
      assert v.live == l1;
    }
    v.Release(cq);
    assert v.live == was;
  }

  /** The RDMA part of struct dmaplane_dev. */
  class Engine {
    const v: Verbs
    var ctx: Ctx
    const mrs: array<MrSlot>
    var nextMrId: nat
    ghost var owner: map<nat, nat>

    ghost predicate Valid()
      reads this, v, mrs
    {
      v.Fresh() && mrs.Length == MAX_MRS && Inv(ctx, v.live, mrs[..], owner) && 1 <= nextMrId < U32
    }

    /** A mapping was released under a live region, or some slot will have its mapping released so. */
    ghost predicate Exposed()
      requires Valid()
      reads this, v, mrs
    {
      v.pulled || AnyRemote(mrs[..], MAX_MRS)
    }

    constructor ()
      ensures Valid() && ctx == NO_CTX && v.live == map[] && !v.pulled && fresh(v) && fresh(mrs)
      ensures mrs.Length == 64 && forall i :: 0 <= i < mrs.Length ==> mrs[i] == NO_MR
    {
      v := new Verbs();
      mrs := new MrSlot[MAX_MRS](_ => NO_MR);
      ctx, nextMrId, owner := NO_CTX, 1, map[];
    }

    /** IOCTL_SETUP_RDMA: everything, or nothing. */
    method SetupRdma(env: SetupEnv) returns (status: Status)
      requires Valid() && |env.connect| >= 6
      modifies this`ctx, v
      ensures Valid() && v.pulled == old(v.pulled)
      ensures status.Ebusy? <==> old(ctx.initialized)
      ensures status.Enodev? <==> !old(ctx.initialized) && !env.device
      ensures status.Ok? <==>
        && !old(ctx.initialized) && env.device && env.port && env.gid && env.pd && env.cqA && env.cqB
        && env.qpA && env.qpB && env.dmac && forall i :: 0 <= i < 6 ==> env.connect[i]
      ensures status.Ok? || status.Ebusy? || status.Enodev? || status.Efailed?
      ensures status.Ok? ==> ctx.initialized && ctx.qpPeer == 0
      ensures !status.Ok? ==> ctx == old(ctx) && v.live == old(v.live)
    {
      ghost var was := ctx;
      AllConnect(env);
      status, ctx := Setup(v, ctx, env);
      assert !was.initialized && status.Ok? ==> Inv(ctx, v.live, mrs[..], owner);
    }

    /** rdma_engine_init_peer: the peer pair in INIT, or nothing. */
    method InitPeer(cqOk: bool, qpOk: bool, initOk: bool, gidOk: bool) returns (status: Status)
      requires Valid()
      modifies this`ctx, v
      ensures Valid() && v.pulled == old(v.pulled)
      ensures status.Einval? <==> !old(ctx.initialized)
      ensures status.Ebusy? <==> old(ctx.initialized && ctx.qpPeer != 0)
      ensures status.Ok? <==> old(ctx.initialized && ctx.qpPeer == 0) && cqOk && qpOk && initOk && gidOk
      ensures !status.Ok? ==> ctx == old(ctx) && v.live == old(v.live)
      ensures status.Ok? ==>
        && ctx == old(ctx).(cqPeer := ctx.cqPeer, qpPeer := ctx.qpPeer) && ctx.qpPeer != 0
        && v.live == With(With(old(v.live), ctx.cqPeer, Cq(ctx.ibDev)), ctx.qpPeer, Qp(ctx.pd, ctx.cqPeer, Init))
    {
      if !ctx.initialized {
        return Einval;
      }
      if ctx.qpPeer != 0 {
        return Ebusy;
      }
      InvCloses(ctx, v.live, mrs[..], owner);
      ghost var was := v.live;
      var cq, qp := MakePeer(v, ctx.ibDev, ctx.pd, cqOk, qpOk, initOk, gidOk);
      if qp == 0 {
        return Efailed;
      }
      ctx := ctx.(cqPeer := cq, qpPeer := qp);
      PeerAdded(old(ctx), ctx, was, v.live, mrs[..], owner);
      status := Ok;
    }

    /** The peer queue pair exists and waits to be connected. */
    ghost predicate PeerInInit()
      requires Valid()
      reads this, v, mrs
    {
      ctx.qpPeer != 0 && v.live[ctx.qpPeer].state.Init?
    }

    /** rdma_engine_connect_peer: only from INIT, and connected means RTS.  Refused between RTR and
        RTS it leaves the queue pair in RTR; refused earlier it changes nothing. */
    method ConnectPeer(gidOk: bool, rtrOk: bool, rtsOk: bool) returns (status: Status)
      requires Valid()
      modifies this`ctx, v`live
      ensures Valid()
      ensures status.Einval? <==> old(ctx.qpPeer) == 0
      ensures ctx == if status.Ok? then old(ctx).(peerConnected := true) else old(ctx)
      ensures status.Ok? <==> old(PeerInInit()) && gidOk && rtrOk && rtsOk
      ensures v.live ==
        if old(PeerInInit()) && gidOk && rtrOk then Moved(old(v.live), old(ctx.qpPeer), if rtsOk then Rts else Rtr)
        else old(v.live)
    {
      if ctx.qpPeer == 0 {
        return Einval;
      }
      if !gidOk {
        return Efailed;
      }
      ghost var was := v.live;
      var ok := v.ModifyQp(ctx.qpPeer, Rtr, rtrOk);
      if !ok {
        return Efailed;
      }
      ok := v.ModifyQp(ctx.qpPeer, Rts, rtsOk);
      PeerMoved(ctx, was, v.live, mrs[..], owner);
      if !ok {
        return Efailed;
      }
      ctx := ctx.(peerConnected := true);
      status := Ok;
    }

    /** rdma_engine_teardown_peer. */
    method TeardownPeer(errOk: bool)
      requires Valid()
      modifies this`ctx, v`live, v`pulled
      ensures Valid() && v.pulled == old(v.pulled)
      ensures ctx == old(ctx).(cqPeer := 0, qpPeer := 0, peerConnected := false)
      ensures v.live == old(v.live) - (if old(ctx.qpPeer) == 0 then {} else {old(ctx.qpPeer), old(ctx.cqPeer)})
    {
      if !ctx.peerConnected && ctx.qpPeer == 0 {
        return;
      }
      PeerLast(ctx, v.live, mrs[..], owner);
      PeerRemoved(ctx, v.live, mrs[..], owner);
      DestroyPeer(v, ctx.qpPeer, ctx.cqPeer, errOk);
      ctx := ctx.(cqPeer := 0, qpPeer := 0, peerConnected := false);
    }

    method FindMr(mrId: nat) returns (i: nat)
      requires mrs.Length == MAX_MRS
      ensures i <= MAX_MRS && (i < MAX_MRS ==> mrs[i].inUse && mrs[i].id == mrId)
      ensures forall j :: 0 <= j < i ==> !(mrs[j].inUse && mrs[j].id == mrId)
    {
      i := 0;
      while i < MAX_MRS
        invariant i <= MAX_MRS && forall j :: 0 <= j < i ==> !(mrs[j].inUse && mrs[j].id == mrId)
      {
        if mrs[i].inUse && mrs[i].id == mrId {
          return;
        }
        i := i + 1;
      }
    }

    method FreeMrSlot() returns (i: nat)
      requires mrs.Length == MAX_MRS
      ensures i <= MAX_MRS && (i < MAX_MRS ==> !mrs[i].inUse)
      ensures forall j :: 0 <= j < i ==> mrs[j].inUse
    {
      i := 0;
      while i < MAX_MRS
        invariant i <= MAX_MRS && forall j :: 0 <= j < i ==> mrs[j].inUse
      {
        if !mrs[i].inUse {
          return;
        }
        i := i + 1;
      }
    }

    /** rdma_engine_register_mr on a page-backed buffer; regOk is the registration work request
        and its completion. */
    method RegisterMr(bufferFound: bool, pageBacked: bool, fastReg: bool, sgtOk: bool, mrOk: bool, regOk: bool)
      returns (status: Status, mrId: nat, ghost slot: nat)
      requires Valid()
      modifies this`nextMrId, this`owner, v, mrs
      ensures Valid() && v.pulled == old(v.pulled)
      ensures status.Einval? <==> !ctx.initialized || (bufferFound && !pageBacked)
      ensures status.Enoent? <==> ctx.initialized && !bufferFound
      ensures status.Ok? <==>
        && ctx.initialized && bufferFound && pageBacked && sgtOk && (fastReg ==> mrOk && regOk)
        && AnyFree(old(mrs[..]))
      ensures status.Ok? || status.Einval? || status.Enoent? || status.Efailed?
      ensures !status.Ok? ==> v.live == old(v.live) && mrs[..] == old(mrs[..]) && owner == old(owner)
      ensures nextMrId ==
        if !status.Ok? then old(nextMrId) else if old(nextMrId) == 0xFFFF_FFFF then 1 else old(nextMrId) + 1
      ensures status.Ok? ==>
        && slot < MAX_MRS && Registered(old(mrs[..]), mrs[..], slot, fastReg)
        && mrs[slot].id == mrId == old(nextMrId)
        && v.live == Added(old(v.live), ctx.ibDev, ctx.pd, mrs[slot].sgt, mrs[slot].mr)
    {
      mrId, slot := 0, 0;
      if !ctx.initialized {
        return Einval, 0, 0;
      }
      if !bufferFound {
        return Enoent, 0, 0;
      }
      if !pageBacked {
        return Einval, 0, 0;
      }
      var ok;
      ok, mrId, slot := AddMr(fastReg, sgtOk, mrOk, regOk);
      status := if ok then Ok else Efailed;
    }

    /** The mapping, the fast-reg MR and the slot for them: all, or none. */
    method AddMr(fastReg: bool, sgtOk: bool, mrOk: bool, regOk: bool) returns (ok: bool, mrId: nat, ghost slot: nat)
      requires Valid() && ctx.initialized
      modifies this`nextMrId, this`owner, v, mrs
      ensures Valid() && v.pulled == old(v.pulled)
      ensures ok <==> Backed(fastReg, sgtOk, mrOk, regOk) && AnyFree(old(mrs[..]))
      ensures !ok ==> v.live == old(v.live) && mrs[..] == old(mrs[..]) && owner == old(owner)
      ensures nextMrId == if ok then NextId(old(nextMrId)) else old(nextMrId)
      ensures ok ==> slot < MAX_MRS && Registered(old(mrs[..]), mrs[..], slot, fastReg)
      ensures ok ==> mrs[slot].id == mrId == old(nextMrId)
      ensures ok ==> v.live == Added(old(v.live), ctx.ibDev, ctx.pd, mrs[slot].sgt, mrs[slot].mr)
    {
      mrId, slot := 0, 0;
      InvCloses(ctx, v.live, mrs[..], owner);
      var i := FreeMrSlot();
      ghost var was := mrs[..];
      assert AnyFree(was) <==> i < MAX_MRS;
      var sgt, mr := MakeMr(v, ctx.ibDev, ctx.pd, fastReg, sgtOk, mrOk, regOk, i < MAX_MRS);
      ok := sgt != 0;
      if !ok {
        return;
      }
      mrId, slot := nextMrId, i;
      nextMrId := NextId(nextMrId);
      var m := MrSlot(true, mrId, mr, sgt);
      RecordMr(i, m, old(v.live));
      assert mrs[i] == mrs[..][i] == m;
    }

    /** Fill a free slot with objects just made. */
    method RecordMr(i: nat, m: MrSlot, ghost before: map<nat, Obj>)
      requires v.Fresh() && mrs.Length == MAX_MRS && Inv(ctx, before, mrs[..], owner) && ctx.initialized
      requires 1 <= nextMrId < U32
      requires i < MAX_MRS && !mrs[i].inUse && m.inUse
      requires m.sgt != 0 && m.sgt !in before && m.mr !in before && m.sgt != m.mr
      requires v.live == Added(before, ctx.ibDev, ctx.pd, m.sgt, m.mr)
      modifies this`owner, mrs
      ensures Valid() && mrs[..] == old(mrs[..])[i := m]
    {
      ghost var was := mrs[..];
      MrAdded(ctx, before, v.live, was, owner, i, m);
      mrs[i] := m;
      assert mrs[..] == was[i := m];
      owner := Owning(owner, i, m);
    }

    /** rdma_engine_deregister_mr: the first slot with that id. */
    method DeregisterMr(mrId: nat) returns (status: Status, ghost slot: nat)
      requires Valid()
      modifies this`owner, v`live, v`pulled, mrs
      ensures Valid()
      ensures v.pulled == (old(v.pulled) || (status.Ok? && slot < MAX_MRS && Remote(old(mrs[..])[slot])))
      ensures status.Ok? || status.Enoent?
      ensures status.Enoent? ==> v.live == old(v.live) && mrs[..] == old(mrs[..])
      ensures status.Enoent? ==> forall j :: 0 <= j < MAX_MRS ==> !(old(mrs[j]).inUse && old(mrs[j]).id == mrId)
      ensures status.Ok? ==>
        && slot < MAX_MRS && old(mrs[slot].inUse && mrs[slot].id == mrId)
        && (forall j :: 0 <= j < slot ==> !(old(mrs[j]).inUse && old(mrs[j]).id == mrId))
        && mrs[..] == old(mrs[..])[slot := old(mrs[slot]).(inUse := false, mr := 0, sgt := 0)]
        && v.live == old(v.live) - {old(mrs[slot].sgt), old(mrs[slot].mr)}
    {
      var i := FindMr(mrId);
      slot := i;
      if i == MAX_MRS {
        return Enoent, i;
      }
      ghost var was, l0 := mrs[..], v.live;
      var m := mrs[i];
      MrObjects(ctx, l0, was, owner, i);
      PulledIff(ctx, l0, was, owner, i);
      MrRemoved(ctx, l0, was, owner, i);
      DestroyMr(v, m.sgt, m.mr);
      mrs[i] := m.(inUse := false, mr := 0, sgt := 0);
      assert mrs[..] == was[i := m.(inUse := false, mr := 0, sgt := 0)];
      owner := owner - {m.sgt, m.mr};
      status := Ok;
    }

    /** IOCTL_TEARDOWN_RDMA: every MR by its id, then the peer, then the pair.  Afterwards
        nothing is live. */
    method TeardownRdma(errOk: bool)
      requires Valid()
      modifies this`ctx, this`owner, v`live, v`pulled, mrs
      ensures Valid() && ctx == NO_CTX && v.live == map[]
      ensures v.pulled == (old(v.pulled) || AnyRemote(old(mrs[..]), MAX_MRS))
      ensures forall i :: 0 <= i < MAX_MRS ==> !mrs[i].inUse
    {
      DeregisterAll();
      NoMrsLeft(ctx, v.live, mrs[..], owner);
      EngineTeardown(errOk);
    }

    method DeregisterAll()
      requires Valid()
      modifies this`owner, v`live, v`pulled, mrs
      ensures Valid() && v.pulled == (old(v.pulled) || AnyRemote(old(mrs[..]), MAX_MRS))
      ensures forall i :: 0 <= i < MAX_MRS ==> !mrs[i].inUse
    {
      ghost var was := mrs[..];
      for j := 0 to MAX_MRS
        invariant Valid()
        invariant forall i :: 0 <= i < j ==> !mrs[i].inUse
        invariant forall i :: j <= i < MAX_MRS ==> mrs[i] == was[i]
        invariant v.pulled == (old(v.pulled) || AnyRemote(was, j))
      {
        OneMoreSlot(was, j);
        if mrs[j].inUse {
          DeregisterNext(j);
        }
      }
    }

    /** Deregistering slot j by its id, with nothing left before it, clears slot j: no earlier
        slot can carry the same id. */
    method DeregisterNext(j: nat)
      requires Valid() && j < MAX_MRS && mrs[j].inUse && forall i :: 0 <= i < j ==> !mrs[i].inUse
      modifies this`owner, v`live, v`pulled, mrs
      ensures Valid() && v.pulled == (old(v.pulled) || Remote(old(mrs[j])))
      ensures forall i :: 0 <= i < MAX_MRS ==> if i == j then !mrs[i].inUse else mrs[i] == old(mrs[i])
    {
      ghost var was := mrs[..];
      var status, slot := DeregisterMr(mrs[j].id);
      assert slot == j;
      assert forall i :: 0 <= i < MAX_MRS ==> mrs[i] == mrs[..][i];
    }

    /** rdma_engine_teardown, once no MR is left. */
    method EngineTeardown(errOk: bool)
      requires Valid() && owner == map[]
      modifies this`ctx, v`live, v`pulled
      ensures Valid() && ctx == NO_CTX && v.live == map[] && v.pulled == old(v.pulled)
    {
      if !ctx.initialized {
        return;
      }
      TeardownPeer(errOk);
      OnlyTheCore(ctx, v.live, mrs[..], owner);
      DestroyCore(v, ctx, errOk);
      ctx := NO_CTX;
    }
  }

  /** Slot i, the first that was free, is in use, with a fast-reg MR exactly for remote access; no
      other slot has changed. */
  predicate Registered(was: seq<MrSlot>, now: seq<MrSlot>, i: nat, fastReg: bool) {
    && i < |was| && |now| == |was| && now == was[i := now[i]]
    && !was[i].inUse && (forall j :: 0 <= j < i ==> was[j].inUse)
    && now[i].inUse && (now[i].mr != 0 <==> fastReg)
  }

  predicate AnyFree(mrs: seq<MrSlot>) { exists i :: 0 <= i < |mrs| && !mrs[i].inUse }

  /** The mapping and, where one is needed, the fast-reg MR are granted. */
  predicate Backed(fastReg: bool, sgtOk: bool, mrOk: bool, regOk: bool) { sgtOk && (fastReg ==> mrOk && regOk) }

  /** The id after this one; 0 is skipped. */
  function NextId(id: nat): nat {
    if (id + 1) % U32 == 0 then 1 else (id + 1) % U32
  }

  /** register_mr_fastreg, and giving the MR up when no slot is free: an MR built on the mapping,
      or nothing. */
  method MakeFastMr(v: Verbs, pd: nat, sgt: nat, mrOk: bool, regOk: bool, slotFree: bool) returns (mr: nat)
    requires v.Fresh() && Closed(v.live) && pd in v.live
    modifies v`live, v`next, v`pulled
    ensures v.pulled == old(v.pulled) && v.Fresh()
    ensures mr != 0 <==> mrOk && regOk && slotFree
    ensures mr == 0 ==> v.live == old(v.live)
    ensures mr != 0 ==> mr !in old(v.live) && v.live == With(old(v.live), mr, FastMr(pd, sgt))
  {
    mr := v.Acquire(FastMr(pd, sgt), mrOk);
    if mr != 0 && (!regOk || !slotFree) {
      ghost var was := old(v.live);
      v.Release(mr);
      assert v.live == was;
      mr := 0;
    }
  }

  /** A mapping for a buffer and, for remote access, its fast-reg MR: everything, or nothing. */
  method MakeMr(v: Verbs, dev: nat, pd: nat, fastReg: bool, sgtOk: bool, mrOk: bool, regOk: bool, slotFree: bool)
    returns (sgt: nat, mr: nat)
    requires v.Fresh() && Closed(v.live) && MrsMapped(v.live) && dev in v.live && pd in v.live
    modifies v
    ensures v.pulled == old(v.pulled) && v.Fresh()
    ensures sgt != 0 <==> slotFree && Backed(fastReg, sgtOk, mrOk, regOk)
    ensures sgt == 0 ==> v.live == old(v.live)
    ensures sgt != 0 ==>
      && sgt !in old(v.live) && sgt != mr && (mr != 0 <==> fastReg) && (mr != 0 ==> mr !in old(v.live))
      && v.live == Added(old(v.live), dev, pd, sgt, mr)
  {
    ghost var was := v.live;
    mr := 0;
    sgt := v.Acquire(Mapping(dev), sgtOk);
    if sgt == 0 {
      return;
    }
    if fastReg {
      mr := MakeFastMr(v, pd, sgt, mrOk, regOk, slotFree);
    }
    if fastReg && mr != 0 {
      assert v.live == Added(was, dev, pd, sgt, mr);
    } else if fastReg || !slotFree {
      v.Release(sgt);
      assert v.live == was;
      sgt := 0;
    }
  }

  function Owning(owner: map<nat, nat>, i: nat, m: MrSlot): map<nat, nat> {
    if m.mr == 0 then owner[m.sgt := i] else owner[m.sgt := i][m.mr := i]
  }

  lemma {:induction false} PeerAdded(c: Ctx, c': Ctx, live: map<nat, Obj>, live': map<nat, Obj>, mrs: seq<MrSlot>,
                                     owner: map<nat, nat>)
    requires Inv(c, live, mrs, owner) && c.initialized && c.qpPeer == 0
    requires c' == c.(cqPeer := c'.cqPeer, qpPeer := c'.qpPeer)
    requires c'.qpPeer != 0 && c'.cqPeer != 0 && c'.qpPeer != c'.cqPeer
    requires c'.qpPeer !in live && c'.cqPeer !in live
    requires live' == With(With(live, c'.cqPeer, Cq(c.ibDev)), c'.qpPeer, Qp(c.pd, c'.cqPeer, Init))
    ensures Inv(c', live', mrs, owner)
  {
  }

  lemma {:induction false} PeerMoved(c: Ctx, live: map<nat, Obj>, live': map<nat, Obj>, mrs: seq<MrSlot>,
                                     owner: map<nat, nat>)
    requires Inv(c, live, mrs, owner) && c.qpPeer != 0 && !c.peerConnected
    requires IsQp(live', c.qpPeer, c.pd, c.cqPeer) && live' == With(live, c.qpPeer, live'[c.qpPeer])
    ensures Inv(c, live', mrs, owner)
    ensures live'[c.qpPeer].state.Rts? ==> Inv(c.(peerConnected := true), live', mrs, owner)
  {
    forall i | 0 <= i < |mrs| && mrs[i].inUse ensures MrOwns(c, live', owner, i, mrs[i]) {
      assert MrOwns(c, live, owner, i, mrs[i]);
    }
  }

  lemma {:induction false} QpsNeededByNone(live: map<nat, Obj>, live': map<nat, Obj>, q: nat)
    requires q in live && live[q].Qp? && q in live' && live'[q].Qp? && live' == Moved(live, q, live'[q].state)
    ensures forall h :: Unneeded(live, h) <==> Unneeded(live', h)
    ensures live - {q} == live' - {q}
  {
    forall h ensures Unneeded(live, h) <==> Unneeded(live', h) {
      assert Needs(live'[q]) == Needs(live[q]);
      assert forall x :: x in live <==> x in live';
    }
  }

  lemma {:induction false} PeerRemoved(c: Ctx, live: map<nat, Obj>, mrs: seq<MrSlot>, owner: map<nat, nat>)
    requires Inv(c, live, mrs, owner) && c.qpPeer != 0
    ensures Inv(c.(cqPeer := 0, qpPeer := 0, peerConnected := false), live - {c.qpPeer, c.cqPeer}, mrs, owner)
  {
    var live' := live - {c.qpPeer, c.cqPeer};
    forall h | h in owner ensures h in live' {
      assert MrOwns(c, live, owner, owner[h], mrs[owner[h]]);
    }
    forall i | 0 <= i < |mrs| && mrs[i].inUse
      ensures MrOwns(c.(cqPeer := 0, qpPeer := 0, peerConnected := false), live', owner, i, mrs[i])
    {
      assert MrOwns(c, live, owner, i, mrs[i]);
    }
  }

  lemma {:induction false} MrAdded(c: Ctx, live: map<nat, Obj>, live': map<nat, Obj>, mrs: seq<MrSlot>,
                                   owner: map<nat, nat>, i: nat, m: MrSlot)
    requires Inv(c, live, mrs, owner) && c.initialized && i < |mrs| && !mrs[i].inUse && m.inUse
    requires m.sgt != 0 && m.sgt !in live && m.mr !in live && m.sgt != m.mr
    requires live' == Added(live, c.ibDev, c.pd, m.sgt, m.mr)
    ensures Inv(c, live', mrs[i := m], Owning(owner, i, m))
  {
    MrTableGrows(c, live, live', mrs, owner, i, m);
    var owner' := Owning(owner, i, m);
    forall h ensures h in live' <==> h in Handles(c) || h in owner' {
      assert h in live <==> h in Handles(c) || h in owner;
    }
  }

  lemma {:induction false} MrTableGrows(c: Ctx, live: map<nat, Obj>, live': map<nat, Obj>, mrs: seq<MrSlot>,
                                        owner: map<nat, nat>, i: nat, m: MrSlot)
    requires MrTable(c, live, mrs, owner) && i < |mrs| && !mrs[i].inUse && m.inUse
    requires m.sgt != 0 && m.sgt !in live && m.mr !in live && m.sgt != m.mr
    requires live' == Added(live, c.ibDev, c.pd, m.sgt, m.mr)
    ensures MrTable(c, live', mrs[i := m], Owning(owner, i, m))
  {
    forall h | h in owner ensures h in live && h in live' && owner[h] != i {
      assert Held(mrs[owner[h]], h);
    }
    var mrs' := mrs[i := m];
    forall j | 0 <= j < |mrs'| && mrs'[j].inUse ensures MrOwns(c, live', Owning(owner, i, m), j, mrs'[j]) {
      if j != i {
        assert MrOwns(c, live, owner, j, mrs[j]);
      }
    }
  }

  lemma {:induction false} MrRemoved(c: Ctx, live: map<nat, Obj>, mrs: seq<MrSlot>, owner: map<nat, nat>, i: nat)
    requires Inv(c, live, mrs, owner) && i < |mrs| && mrs[i].inUse
    ensures var gone := {mrs[i].sgt, mrs[i].mr};
      Inv(c, live - gone, mrs[i := mrs[i].(inUse := false, mr := 0, sgt := 0)], owner - gone)
  {
    var gone := {mrs[i].sgt, mrs[i].mr};
    assert MrOwns(c, live, owner, i, mrs[i]);
    forall j | 0 <= j < |mrs| && j != i && mrs[j].inUse ensures MrOwns(c, live - gone, owner - gone, j, mrs[j]) {
      assert MrOwns(c, live, owner, j, mrs[j]);
    }
    forall h | h in owner && h !in gone ensures owner[h] != i && h in live {
      assert Held(mrs[owner[h]], h);
    }
  }

  lemma {:induction false} NoMrsLeft(c: Ctx, live: map<nat, Obj>, mrs: seq<MrSlot>, owner: map<nat, nat>)
    requires Inv(c, live, mrs, owner) && forall i :: 0 <= i < |mrs| ==> !mrs[i].inUse
    ensures owner == map[]
  {
    assert owner.Keys == {};
  }

  lemma {:induction false} OnlyTheCore(c: Ctx, live: map<nat, Obj>, mrs: seq<MrSlot>, owner: map<nat, nat>)
    requires Inv(c, live, mrs, owner) && c.initialized && c.qpPeer == 0 && owner == map[]
    ensures Core(c, live) && live.Keys == {c.ibDev, c.pd, c.cqA, c.cqB, c.qpA, c.qpB}
  {
  }

  /** Queue pairs to the error state, then destroyed. */
  method DestroyPair(v: Verbs, c: Ctx, errOk: bool)
    requires v.Fresh() && c.qpA in v.live && v.live[c.qpA].Qp? && c.qpB in v.live && v.live[c.qpB].Qp? && c.qpA != c.qpB
    requires Unneeded(v.live, c.qpA) && Unneeded(v.live, c.qpB)
    modifies v`live, v`pulled
    ensures v.pulled == old(v.pulled)
    ensures v.Fresh() && v.live == old(v.live) - {c.qpA, c.qpB}
  {
    ghost var l := v.live;
    var done := v.ModifyQp(c.qpB, Error, errOk);
    QpsNeededByNone(l, v.live, c.qpB);
    ghost var l' := v.live;
    done := v.ModifyQp(c.qpA, Error, errOk);
    QpsNeededByNone(l', v.live, c.qpA);
    v.ReleaseFlushed(c.qpB, errOk);
    v.ReleaseFlushed(c.qpA, errOk);
    assert v.live == l - {c.qpA, c.qpB};
  }

  /** The loopback pair, its completion queues, the domain, the device: in reverse order of
      creation. */
  method DestroyCore(v: Verbs, c: Ctx, errOk: bool)
    requires v.Fresh() && Core(c, v.live) && v.live.Keys == {c.ibDev, c.pd, c.cqA, c.cqB, c.qpA, c.qpB}
    modifies v`live, v`pulled
    ensures v.pulled == old(v.pulled)
    ensures v.Fresh() && v.live == map[]
  {
    DestroyPair(v, c, errOk);
    assert v.live == map[c.ibDev := Device, c.pd := Pd(c.ibDev), c.cqA := Cq(c.ibDev), c.cqB := Cq(c.ibDev)];
    v.Release(c.cqB);
    v.Release(c.cqA);
    assert v.live == map[c.ibDev := Device, c.pd := Pd(c.ibDev)];
    v.Release(c.pd);
    v.Release(c.ibDev);
    assert v.live.Keys == {};
  }

  // ------------------------------------------------------------- two sessions

  /** What one connect is granted: its GID attribute, RTR and RTS. */
  datatype Attempt = Attempt(gid: bool, rtr: bool, rts: bool)

  /** Some earlier connect got as far as RTR. */
  predicate Spent(attempts: seq<Attempt>, k: nat)
    requires k <= |attempts|
  {
    exists j :: 0 <= j < k && attempts[j].gid && attempts[j].rtr
  }

  /** A list of connects on one peer: attempt k succeeds exactly if the queue pair was in INIT, no
      earlier attempt got as far as RTR, whether or not it reached RTS, and all three grants are
      given.  So a connect that fails past RTR is final. */
  method ConnectAll(e: Engine, attempts: seq<Attempt>) returns (statuses: seq<Status>)
    requires e.Valid()
    modifies e`ctx, e.v`live
    ensures e.Valid() && e.ctx == old(e.ctx).(peerConnected := e.ctx.peerConnected)
    ensures |statuses| == |attempts|
    ensures forall k :: 0 <= k < |attempts| ==>
      (statuses[k].Ok? <==> old(e.PeerInInit()) && !Spent(attempts, k) && attempts[k] == Attempt(true, true, true))
    ensures e.PeerInInit() <==> old(e.PeerInInit()) && !Spent(attempts, |attempts|)
  {
    statuses := [];
    for i := 0 to |attempts|
      invariant e.Valid() && e.ctx == old(e.ctx).(peerConnected := e.ctx.peerConnected)
      invariant |statuses| == i
      invariant forall k :: 0 <= k < i ==>
        (statuses[k].Ok? <==> old(e.PeerInInit()) && !Spent(attempts, k) && attempts[k] == Attempt(true, true, true))
      invariant e.PeerInInit() <==> old(e.PeerInInit()) && !Spent(attempts, i)
    {
      var a := attempts[i];
      var status := e.ConnectPeer(a.gid, a.rtr, a.rts);
      statuses := statuses + [status];
    }
  }

  /** The way out: give the peer up and initialise it again.  Whatever became of the connects
      before, a granted one then succeeds. */
  method Reconnect(e: Engine, attempts: seq<Attempt>, errOk: bool) returns (status: Status)
    requires e.Valid() && e.ctx.initialized
    modifies e`ctx, e.v
    ensures e.Valid() && status.Ok? && e.ctx.peerConnected
  {
    var statuses := ConnectAll(e, attempts);
    e.TeardownPeer(errOk);
    status := e.InitPeer(true, true, true, true);
    status := e.ConnectPeer(true, true, true);
  }

  /** Setup, one registration and its deregistration, nothing refused: a mapping is released under
      a live region exactly for remote access. */
  method RegisterOnce(env: SetupEnv, fastReg: bool) returns (e: Engine)
    requires |env.connect| >= 6 && Granted(env)
    ensures e.Valid() && e.ctx.initialized && (e.v.pulled <==> fastReg)
  {
    e := new Engine();
    var status := e.SetupRdma(env);
    var mrId;
    ghost var slot;
    assert !e.mrs[..][0].inUse;
    status, mrId, slot := e.RegisterMr(true, true, fastReg, true, true, true);
    ghost var mrs := e.mrs[..];
    assert forall j :: 0 <= j < MAX_MRS && j != slot ==> !mrs[j].inUse;
    status, slot := e.DeregisterMr(mrId);
  }

  // ----------------------------------------------------------------- every run

  datatype Call =
    | CallSetup(env: SetupEnv)
    | CallInitPeer(cqOk: bool, qpOk: bool, initOk: bool, gidOk: bool)
    | CallConnectPeer(gidOk: bool, rtrOk: bool, rtsOk: bool)
    | CallDestroyPeer(errOk: bool)
    | CallRegister(bufferFound: bool, pageBacked: bool, fastReg: bool, sgtOk: bool, mrOk: bool, regOk: bool)
    | CallDeregister(mrId: nat)
    | CallTeardown(errOk: bool)

  predicate Complete(call: Call) { call.CallSetup? ==> |call.env.connect| >= 6 }

  /** A granted registration for remote access. */
  predicate MakesRemote(call: Call, status: Status) { call.CallRegister? && call.fastReg && status.Ok? }

  predicate AnyMadeRemote(calls: seq<Call>, statuses: seq<Status>)
    requires |statuses| <= |calls|
  {
    exists i :: 0 <= i < |statuses| && MakesRemote(calls[i], statuses[i])
  }

  /** One call. */
  method Perform(e: Engine, call: Call) returns (status: Status)
    requires e.Valid() && Complete(call)
    modifies e, e.v, e.mrs
    ensures e.Valid() && (e.Exposed() <==> old(e.Exposed()) || MakesRemote(call, status))
  {
    status := Ok;
    match call {
      case CallSetup(env) =>
        status := e.SetupRdma(env);
      case CallInitPeer(cqOk, qpOk, initOk, gidOk) =>
        status := e.InitPeer(cqOk, qpOk, initOk, gidOk);
      case CallConnectPeer(gidOk, rtrOk, rtsOk) =>
        status := e.ConnectPeer(gidOk, rtrOk, rtsOk);
      case CallDestroyPeer(errOk) =>
        e.TeardownPeer(errOk);
      case CallRegister(bufferFound, pageBacked, fastReg, sgtOk, mrOk, regOk) =>
        status := PerformRegister(e, call);
      case CallDeregister(mrId) =>
        status := PerformDeregister(e, mrId);
      case CallTeardown(errOk) =>
        e.TeardownRdma(errOk);
    }
  }

  method PerformRegister(e: Engine, call: Call) returns (status: Status)
    requires e.Valid() && call.CallRegister?
    modifies e, e.v, e.mrs
    ensures e.Valid() && (e.Exposed() <==> old(e.Exposed()) || MakesRemote(call, status))
  {
    ghost var was := e.mrs[..];
    var mrId;
    ghost var slot;
    status, mrId, slot :=
      e.RegisterMr(call.bufferFound, call.pageBacked, call.fastReg, call.sgtOk, call.mrOk, call.regOk);
    if status.Ok? {
      ChangedSlot(was, e.mrs[..], slot);
    }
  }

  method PerformDeregister(e: Engine, mrId: nat) returns (status: Status)
    requires e.Valid()
    modifies e, e.v, e.mrs
    ensures e.Valid() && (e.Exposed() <==> old(e.Exposed()))
  {
    ghost var was := e.mrs[..];
    ghost var slot;
    status, slot := e.DeregisterMr(mrId);
    if status.Ok? {
      ChangedSlot(was, e.mrs[..], slot);
    }
  }

  /** Any sequence of calls from a fresh device, with any acquisition failing, and then a
      teardown: nothing is left; and on the way a mapping was released under a live region exactly
      if some registration for remote access succeeded. */
  method RunThenTeardown(calls: seq<Call>) returns (e: Engine, statuses: seq<Status>)
    requires forall i :: 0 <= i < |calls| ==> Complete(calls[i])
    ensures e.Valid() && e.ctx == NO_CTX && e.v.live == map[]
    ensures forall i :: 0 <= i < MAX_MRS ==> !e.mrs[i].inUse
    ensures |statuses| == |calls| && (e.v.pulled <==> AnyMadeRemote(calls, statuses))
  {
    e := new Engine();
    statuses := [];
    for i := 0 to |calls|
      invariant e.Valid() && fresh(e) && fresh(e.v) && fresh(e.mrs)
      invariant |statuses| == i && (e.Exposed() <==> AnyMadeRemote(calls, statuses))
    {
      var status := Perform(e, calls[i]);
      OneMoreCall(calls, statuses, status);
      statuses := statuses + [status];
    }
    e.TeardownRdma(true);
  }

  lemma {:induction false} OneMoreCall(calls: seq<Call>, statuses: seq<Status>, status: Status)
    requires |statuses| < |calls|
    ensures AnyMadeRemote(calls, statuses + [status]) <==>
      AnyMadeRemote(calls, statuses) || MakesRemote(calls[|statuses|], status)
  {
    var more := statuses + [status];
    assert forall i :: 0 <= i < |statuses| ==> more[i] == statuses[i];
    assert more[|statuses|] == status;
  }
}
