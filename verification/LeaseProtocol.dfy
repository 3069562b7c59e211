/**
 The lease lock of utils/kubernetes_lock.go as a protocol.

 One lease object lives in an API server that accepts an Update only when the
 version it was computed from is still current.  Any number of calls of
 NewLocker, Lock, RenewLock and Unlock run at once, any of them under the same
 client ID.  Every call is split at the points where the outside world can
 interfere: Get, Create, the two clock reads, the arrival of an Update at the
 server, and the arrival of the answer.  Requests and answers may be lost, and
 a request may still arrive after its caller has given up on it.
 */
module LeaseProtocol {
  import opened Common

  /** The lease spec.  Times are microseconds of one clock, durations seconds. */
  datatype Lease = Lease(
    holder: Option<string>,
    acquireTime: Option<int>,
    renewTime: Option<int>,
    transitions: Option<int>,
    duration: Option<int>)

  datatype Store = Missing | Present(version: nat, lease: Lease)

  const MICROS_PER_SECOND := 1_000_000
  const NANOS_PER_SECOND := 1_000_000_000

  /** What NewLocker and getOrCreateLease create. */
  const FRESH_LEASE := Lease(None, None, None, Some(0), None)

  // ---------------------------------------------------------------------
  // Local decisions of the code, as functions of one lease
  // ---------------------------------------------------------------------

  /** Expiry instant: the stored duration if there is one, else the judge's own default. */
  function ExpiresAt(renewed: int, duration: Option<int>, default: int): int {
    renewed + MICROS_PER_SECOND * duration.GetOr(default)
  }

  /** Lock goes on to write: nobody holds the lease, or the holder's time is up. */
  predicate Takeable(lease: Lease, default: int, now: int) {
    lease.holder.Some? && lease.renewTime.Some? ==>
      ExpiresAt(lease.renewTime.value, lease.duration, default) <= now
  }

  /** The identity check of verifyLock; it does not look at expiry. */
  predicate HeldBy(lease: Lease, client: string) {
    lease.holder == Some(client) && client != ""
  }

  /** Seconds written for a TTL option in nanoseconds, None when the field is left alone. */
  function TtlSeconds(ttl: Option<int>): Option<int> {
    if ttl.Some? && ttl.value > 0 then
      var sec := ttl.value / NANOS_PER_SECOND;
      Some(if sec < 1 then 1 else sec)
    else None
  }

  /** The lease Lock writes; without a TTL the old stored duration is inherited. */
  function AcquiredLease(lease: Lease, client: string, ttl: Option<int>, stamp: int): Lease {
    var sec := TtlSeconds(ttl);
    Lease(Some(client), Some(stamp), Some(stamp),
          Some(Wrap32(lease.transitions.GetOr(0) + 1)),
          if sec.Some? then sec else lease.duration)
  }

  function RenewedLease(lease: Lease, stamp: int): Lease {
    lease.(renewTime := Some(stamp))
  }

  function ReleasedLease(lease: Lease): Lease {
    lease.(holder := None, acquireTime := None, renewTime := None, duration := None)
  }

  // ---------------------------------------------------------------------
  // Calls in progress, and the record of what the lease went through
  // ---------------------------------------------------------------------

  datatype Kind = New | Lock | Renew | Unlock

  datatype Outcome = Succeeded | AlreadyHeld | Failed

  datatype Phase =
    | Getting
    | Creating
    | Regetting
    | Judging(version: nat, seen: Lease)
    | Stamping(version: nat, seen: Lease)
    | Writing(version: nat, seen: Lease, next: Lease, gaveUp: bool)
    | Answering(applied: bool)
    | Done(outcome: Outcome)

  /** Where a write is on record: the tenure it started, renewed or ended, and its stamp there. */
  datatype Landing = Landing(tenure: nat, at: int)

  /** One call.  landing is set when its write has landed. */
  datatype Op = Op(kind: Kind, client: string, ttl: Option<int>, default: int,
                   phase: Phase, landing: Option<Landing>) {
    /** What the caller has been told, if the call is over for it. */
    function Returned(): Option<Outcome> {
      match phase
      case Done(r) => Some(r)
      case Writing(_, _, _, true) => Some(Failed)
      case _ => None
    }
  }

  /** One uninterrupted ownership of the lease; released is the instant its Unlock landed. */
  datatype Tenure = Tenure(op: nat, client: string, acquired: int, renewed: int,
                           duration: Option<int>, released: Option<int>, token: int)

  datatype State = State(now: int, store: Store, ops: map<nat, Op>, history: seq<Tenure>) {
    function With(id: nat, op: Op): State {
      this.(ops := ops[id := op])
    }
  }

  datatype Action =
    | Tick(elapsed: nat)
    | Begin(op: nat, kind: Kind, client: string, ttl: Option<int>, default: int)
    | Get(op: nat, answered: bool)
    | Create(op: nat, reached: bool, answered: bool)
    | Judge(op: nat)
    | Stamp(op: nat)
    | Deliver(op: nat)
    | GiveUp(op: nat)
    | Answer(op: nat, lost: bool)

  function Init(now: int): State {
    State(now, Missing, map[], [])
  }

  function AfterGet(o: Op, store: Store): Phase {
    match store
    case Missing =>
      if o.phase.Getting? && (o.kind.New? || o.kind.Lock?) then Creating else Done(Failed)
    case Present(v, lease) =>
      match o.kind
      case New => Done(Succeeded)
      case Lock => Judging(v, lease)
      case Renew => if HeldBy(lease, o.client) then Stamping(v, lease) else Done(Failed)
      case Unlock =>
        if HeldBy(lease, o.client) then Writing(v, lease, ReleasedLease(lease), false) else Done(Failed)
  }

  /** NewLocker treats losing the creation race as an error, getOrCreateLease reads again. */
  function AfterCreate(o: Op, store: Store): Phase {
    match o.kind
    case Lock => Regetting
    case _ => if store.Missing? then Done(Succeeded) else Done(Failed)
  }

  function AfterAnswer(o: Op, applied: bool): Outcome {
    if applied then Succeeded
    else if o.kind.Lock? then AlreadyHeld
    else Failed
  }

  predicate Lands(store: Store, version: nat) {
    store.Present? && store.version == version
  }

  /** The history after the write of call id lands. */
  function Recorded(s: State, id: nat): seq<Tenure>
    requires id in s.ops && s.ops[id].phase.Writing?
  {
    var o := s.ops[id];
    var next := o.phase.next;
    var h := s.history;
    match o.kind
    case Lock =>
      var stamp := next.renewTime.GetOr(s.now);
      h + [Tenure(id, o.client, stamp, stamp, next.duration, None, next.transitions.GetOr(0))]
    case Renew =>
      if h == [] then h else h[|h| - 1 := h[|h| - 1].(renewed := next.renewTime.GetOr(s.now))]
    case _ =>
      if h == [] then h else h[|h| - 1 := h[|h| - 1].(released := Some(s.now))]
  }

  /** The record of a write that lands now. */
  function LandingOf(s: State, o: Op): Option<Landing>
    requires o.phase.Writing?
  {
    var at := if o.kind.Unlock? then s.now else o.phase.next.renewTime.GetOr(s.now);
    if o.kind.Lock? then Some(Landing(|s.history|, at))
    else if s.history == [] then None
    else Some(Landing(|s.history| - 1, at))
  }

  function DeliverStep(s: State, id: nat): State
    requires id in s.ops && s.ops[id].phase.Writing?
  {
    var o := s.ops[id];
    var w := o.phase;
    var applied := Lands(s.store, w.version);
    var phase := if w.gaveUp then Done(Failed) else Answering(applied);
    if applied then
      State(s.now, Present(w.version + 1, w.next),
            s.ops[id := o.(phase := phase, landing := LandingOf(s, o))], Recorded(s, id))
    else s.With(id, o.(phase := phase))
  }

  function CreateStep(s: State, id: nat, reached: bool, answered: bool): State
    requires id in s.ops
  {
    var o := s.ops[id];
    var phase := if reached && answered then AfterCreate(o, s.store) else Done(Failed);
    var store := if reached && s.store.Missing? then Present(0, FRESH_LEASE) else s.store;
    State(s.now, store, s.ops[id := o.(phase := phase)], s.history)
  }

  /** One step; an action that does not apply to the state changes nothing. */
  function Step(s: State, a: Action): State {
    match a
    case Tick(d) => s.(now := s.now + d)
    case Begin(id, kind, client, ttl, default) =>
      if id in s.ops then s else s.With(id, Op(kind, client, ttl, default, Getting, None))
    case Get(id, answered) =>
      if id in s.ops && (s.ops[id].phase.Getting? || s.ops[id].phase.Regetting?) then
        var o := s.ops[id];
        s.With(id, o.(phase := if answered then AfterGet(o, s.store) else Done(Failed)))
      else s
    case Create(id, reached, answered) =>
      if id in s.ops && s.ops[id].phase.Creating? then CreateStep(s, id, reached, answered) else s
    case Judge(id) =>
      if id in s.ops && s.ops[id].phase.Judging? then
        var o := s.ops[id];
        s.With(id, o.(phase :=
          if Takeable(o.phase.seen, o.default, s.now) then Stamping(o.phase.version, o.phase.seen)
          else Done(AlreadyHeld)))
      else s
    case Stamp(id) =>
      if id in s.ops && s.ops[id].phase.Stamping? then
        var o := s.ops[id];
        var next := if o.kind.Lock? then AcquiredLease(o.phase.seen, o.client, o.ttl, s.now)
                    else RenewedLease(o.phase.seen, s.now);
        s.With(id, o.(phase := Writing(o.phase.version, o.phase.seen, next, false)))
      else s
    case Deliver(id) =>
      if id in s.ops && s.ops[id].phase.Writing? then DeliverStep(s, id) else s
    case GiveUp(id) =>
      if id in s.ops && s.ops[id].phase.Writing? then
        s.With(id, s.ops[id].(phase := s.ops[id].phase.(gaveUp := true)))
      else s
    case Answer(id, lost) =>
      if id in s.ops && s.ops[id].phase.Answering? then
        var o := s.ops[id];
        s.With(id, o.(phase := Done(if lost then Failed else AfterAnswer(o, o.phase.applied))))
      else s
  }

  /** A run: any finite interleaving of actions. */
  function Exec(s: State, acts: seq<Action>): State
    decreases |acts|
  {
    if acts == [] then s else Exec(Step(s, acts[0]), acts[1..])
  }

  // ---------------------------------------------------------------------
  // Hold windows
  // ---------------------------------------------------------------------

  /** End of the hold window when a lease without a stored duration lasts `default` seconds. */
  function Until(t: Tenure, default: int): int {
    var expiry := ExpiresAt(t.renewed, t.duration, default);
    if t.released.Some? && t.released.value < expiry then t.released.value else expiry
  }

  predicate Holds(t: Tenure, default: int, instant: int) {
    t.acquired <= instant < Until(t, default)
  }

  ghost predicate Ordered(h: seq<Tenure>, default: int) {
    forall i, j :: 0 <= i < j < |h| ==> Until(h[i], default) <= h[j].acquired
  }

  /** Every call of the run judges leases without a stored duration by at least `default`. */
  ghost predicate DefaultsAtLeast(acts: seq<Action>, default: int) {
    forall i :: 0 <= i < |acts| && acts[i].Begin? ==> acts[i].default >= default
  }

  // ---------------------------------------------------------------------
  // The invariant
  // ---------------------------------------------------------------------

  /** A snapshot that still carries the current version is the stored lease. */
  ghost predicate SnapshotOk(s: State, version: nat, seen: Lease) {
    && s.store.Present?
    && version <= s.store.version
    && (version == s.store.version ==> seen == s.store.lease)
    && (seen.renewTime.Some? ==> seen.renewTime.value <= s.now)
  }

  ghost predicate ReleasedBy(h: seq<Tenure>, instant: int) {
    h != [] && h[|h| - 1].released.Some? ==> h[|h| - 1].released.value <= instant
  }

  ghost predicate LeaseMatches(s: State) {
    match s.store
    case Missing => s.history == []
    case Present(_, lease) =>
      && lease.transitions == Some(Wrap32(|s.history|))
      && (lease.holder.None? ==>
            && lease.renewTime.None?
            && (s.history != [] ==> s.history[|s.history| - 1].released.Some?))
      && (lease.holder.Some? ==> s.history != [] && LeaseOfTenure(lease, s.history[|s.history| - 1]))
  }

  ghost predicate LeaseOfTenure(lease: Lease, t: Tenure) {
    && lease == Lease(Some(t.client), Some(t.acquired), Some(t.renewed), lease.transitions, t.duration)
    && t.released.None?
  }

  ghost predicate TenureOk(s: State, k: nat)
    requires k < |s.history|
  {
    var t := s.history[k];
    && t.acquired <= t.renewed <= s.now
    && (t.released.Some? ==> t.renewed <= t.released.value <= s.now)
    && t.token == Wrap32(k + 1)
  }

  ghost predicate StampOk(s: State, lease: Lease) {
    lease.renewTime.Some? && lease.renewTime.value <= s.now
  }

  /** A write in flight is the code's own function of the snapshot and of a stamp already read. */
  ghost predicate WriteOk(s: State, o: Op) {
    o.phase.Writing? ==>
      var w := o.phase;
      && SnapshotOk(s, w.version, w.seen)
      && match o.kind
         case New => false
         case Unlock => HeldBy(w.seen, o.client) && w.next == ReleasedLease(w.seen)
         case Lock =>
           && StampOk(s, w.next)
           && w.next == AcquiredLease(w.seen, o.client, o.ttl, w.next.renewTime.value)
           && Takeable(w.seen, o.default, w.next.renewTime.value)
           && (w.seen.renewTime.Some? ==> w.seen.renewTime.value <= w.next.renewTime.value)
           && (w.version == s.store.version ==> ReleasedBy(s.history, w.next.renewTime.value))
         case Renew =>
           && HeldBy(w.seen, o.client)
           && StampOk(s, w.next)
           && w.next == RenewedLease(w.seen, w.next.renewTime.value)
           && (w.seen.renewTime.Some? ==> w.seen.renewTime.value <= w.next.renewTime.value)
  }

  /** The tenure shows what the landed write of the call did to it. */
  ghost predicate OnRecord(h: seq<Tenure>, id: nat, o: Op, l: Landing) {
    && l.tenure < |h|
    && var t := h[l.tenure];
    && t.client == o.client
    && match o.kind
       case New => false
       case Lock => t.op == id && t.acquired == l.at
       case Renew => t.acquired <= l.at <= t.renewed
       case Unlock => t.released == Some(l.at)
  }

  /** A write that landed is on record under the caller's own name, and only such a call is told success. */
  ghost predicate CreditOk(s: State, id: nat, o: Op) {
    && (o.landing.Some? ==> OnRecord(s.history, id, o, o.landing.value))
    && (!o.kind.New? && (o.phase == Answering(true) || o.phase == Done(Succeeded)) ==> o.landing.Some?)
  }

  ghost predicate OpOk(s: State, default: int, id: nat)
    requires id in s.ops
  {
    var o := s.ops[id];
    && o.default >= default
    && (o.phase.Creating? ==> o.kind.Lock? || o.kind.New?)
    && (o.phase.Judging? ==> o.kind.Lock? && SnapshotOk(s, o.phase.version, o.phase.seen))
    && (o.phase.Stamping? ==>
          && SnapshotOk(s, o.phase.version, o.phase.seen)
          && (o.kind.Lock? || o.kind.Renew?)
          && (o.kind.Lock? ==> Takeable(o.phase.seen, o.default, s.now))
          && (o.kind.Renew? ==> HeldBy(o.phase.seen, o.client)))
    && WriteOk(s, o)
    && CreditOk(s, id, o)
  }

  ghost predicate Inv(s: State, default: int) {
    && LeaseMatches(s)
    && (forall k :: 0 <= k < |s.history| ==> TenureOk(s, k))
    && Ordered(s.history, default)
    && (forall id :: id in s.ops ==> OpOk(s, default, id))
  }

  // ---------------------------------------------------------------------
  // Every step keeps the invariant
  // ---------------------------------------------------------------------

  /** Later tenures may be added and the last one renewed or released; nothing else is rewritten. */
  ghost predicate Extends(h: seq<Tenure>, h': seq<Tenure>) {
    && |h| <= |h'|
    && (forall k :: 0 <= k < |h| ==> h'[k].op == h[k].op && h'[k].client == h[k].client
                                     && h'[k].acquired == h[k].acquired && h'[k].token == h[k].token
                                     && h[k].renewed <= h'[k].renewed
                                     && (h[k].released.Some? ==> h'[k].released == h[k].released))
  }

  /** What the other calls can see of a step. */
  ghost predicate Interferes(s: State, s': State) {
    && s.now <= s'.now
    && (|| (s'.store == s.store && s'.history == s.history)
        || (s.store.Missing? && s'.history == s.history)
        || (&& s.store.Present? && s'.store.Present?
            && s.store.version < s'.store.version
            && Extends(s.history, s'.history)))
  }

  lemma OtherCallsAreStable(s: State, s': State, default: int, id: nat)
    requires id in s.ops && id in s'.ops && s'.ops[id] == s.ops[id]
    requires Interferes(s, s') && OpOk(s, default, id)
    ensures OpOk(s', default, id)
  {
  }

  lemma OneCallMoves(s: State, s': State, default: int, id: nat)
    requires Inv(s, default) && Interferes(s, s')
    requires s'.ops.Keys == s.ops.Keys + {id}
    requires forall i :: i in s.ops && i != id ==> s'.ops[i] == s.ops[i]
    requires OpOk(s', default, id)
    ensures forall i :: i in s'.ops ==> OpOk(s', default, i)
  {
    forall i | i in s'.ops ensures OpOk(s', default, i) {
      if i != id { OtherCallsAreStable(s, s', default, i); }
    }
  }

  /** The write of Lock starts a tenure after every earlier window has ended. */
  lemma EarlierWindowsAreOver(s: State, default: int, id: nat)
    requires Inv(s, default) && id in s.ops && s.ops[id].phase.Writing?
    requires s.ops[id].kind.Lock? && Lands(s.store, s.ops[id].phase.version)
    ensures s.ops[id].phase.next.renewTime.Some?
    ensures forall i :: 0 <= i < |s.history| ==>
              Until(s.history[i], default) <= s.ops[id].phase.next.renewTime.value
  {
    var h := s.history;
    assert OpOk(s, default, id);
    var stamp := s.ops[id].phase.next.renewTime.value;
    if h != [] {
      assert TenureOk(s, |h| - 1);
      assert Until(h[|h| - 1], default) <= stamp && h[|h| - 1].acquired <= stamp;
    }
  }

  lemma LockWriteTenures(s: State, default: int, id: nat)
    requires Inv(s, default) && id in s.ops && s.ops[id].phase.Writing?
    requires s.ops[id].kind.Lock? && Lands(s.store, s.ops[id].phase.version)
    ensures var s' := DeliverStep(s, id);
            LeaseMatches(s') && Ordered(s'.history, default)
            && forall k :: 0 <= k < |s'.history| ==> TenureOk(s', k)
  {
    var s' := DeliverStep(s, id);
    assert OpOk(s, default, id);
    EarlierWindowsAreOver(s, default, id);
    WrapStep(|s.history|);
    forall k | 0 <= k < |s'.history| ensures TenureOk(s', k) {
      if k < |s.history| { assert TenureOk(s, k); }
    }
  }

  lemma LockWriteKeepsInv(s: State, default: int, id: nat)
    requires Inv(s, default) && id in s.ops && s.ops[id].phase.Writing?
    requires s.ops[id].kind.Lock? && Lands(s.store, s.ops[id].phase.version)
    ensures Inv(DeliverStep(s, id), default)
  {
    LockWriteTenures(s, default, id);
    assert OpOk(s, default, id);
    OneCallMoves(s, DeliverStep(s, id), default, id);
  }

  lemma WrapStep(n: nat)
    ensures Wrap32(Wrap32(n) + 1) == Wrap32(n + 1)
  {
  }

  lemma RenewWriteKeepsInv(s: State, default: int, id: nat)
    requires Inv(s, default) && id in s.ops && s.ops[id].phase.Writing?
    requires s.ops[id].kind.Renew? && Lands(s.store, s.ops[id].phase.version)
    ensures Inv(DeliverStep(s, id), default)
  {
    var s' := DeliverStep(s, id);
    assert OpOk(s, default, id);
    forall k | 0 <= k < |s'.history| ensures TenureOk(s', k) {
      assert TenureOk(s, k);
    }
    assert TenureOk(s, |s.history| - 1);
    OneCallMoves(s, s', default, id);
  }

  lemma UnlockWriteKeepsInv(s: State, default: int, id: nat)
    requires Inv(s, default) && id in s.ops && s.ops[id].phase.Writing?
    requires s.ops[id].kind.Unlock? && Lands(s.store, s.ops[id].phase.version)
    ensures Inv(DeliverStep(s, id), default)
  {
    var s' := DeliverStep(s, id);
    assert OpOk(s, default, id);
    forall k | 0 <= k < |s'.history| ensures TenureOk(s', k) {
      assert TenureOk(s, k);
    }
    OneCallMoves(s, s', default, id);
  }

  lemma DeliverKeepsInv(s: State, default: int, id: nat)
    requires Inv(s, default) && id in s.ops && s.ops[id].phase.Writing?
    ensures Inv(DeliverStep(s, id), default)
  {
    assert OpOk(s, default, id);
    if !Lands(s.store, s.ops[id].phase.version) {
      QuietStepKeepsInv(s, DeliverStep(s, id), default, id);
    } else {
      match s.ops[id].kind {
        case Lock => LockWriteKeepsInv(s, default, id);
        case Renew => RenewWriteKeepsInv(s, default, id);
        case Unlock => UnlockWriteKeepsInv(s, default, id);
        case New => assert false;
      }
    }
  }

  /** A step of call id that leaves the stored lease alone. */
  lemma QuietStepKeepsInv(s: State, s': State, default: int, id: nat)
    requires Inv(s, default)
    requires s'.ops.Keys == s.ops.Keys + {id} && s.now <= s'.now
    requires s'.history == s.history && s'.store == s.store
    requires forall i :: i in s.ops && i != id ==> s'.ops[i] == s.ops[i]
    requires OpOk(s', default, id)
    ensures Inv(s', default)
  {
    forall k | 0 <= k < |s'.history| ensures TenureOk(s', k) {
      assert TenureOk(s, k);
    }
    OneCallMoves(s, s', default, id);
  }

  lemma CreateKeepsInv(s: State, default: int, id: nat, reached: bool, answered: bool)
    requires Inv(s, default) && id in s.ops && s.ops[id].phase.Creating?
    ensures Inv(CreateStep(s, id, reached, answered), default)
  {
    assert OpOk(s, default, id);
    OneCallMoves(s, CreateStep(s, id, reached, answered), default, id);
    forall k | 0 <= k < |s.history| ensures TenureOk(CreateStep(s, id, reached, answered), k) {
      assert TenureOk(s, k);
    }
  }

  lemma CurrentLeaseIsPast(s: State, default: int)
    requires Inv(s, default)
    ensures s.store.Present? && s.store.lease.renewTime.Some? ==> s.store.lease.renewTime.value <= s.now
    ensures s.store.Present? ==> ReleasedBy(s.history, s.now)
  {
    if s.history != [] { assert TenureOk(s, |s.history| - 1); }
  }

  lemma GetKeepsInv(s: State, default: int, id: nat, answered: bool)
    requires Inv(s, default)
    ensures Inv(Step(s, Get(id, answered)), default)
  {
    var s' := Step(s, Get(id, answered));
    if s' != s {
      assert OpOk(s, default, id);
      CurrentLeaseIsPast(s, default);
      QuietStepKeepsInv(s, s', default, id);
    }
  }

  lemma JudgeKeepsInv(s: State, default: int, id: nat)
    requires Inv(s, default)
    ensures Inv(Step(s, Judge(id)), default)
  {
    var s' := Step(s, Judge(id));
    if s' != s {
      assert OpOk(s, default, id);
      QuietStepKeepsInv(s, s', default, id);
    }
  }

  lemma StampKeepsInv(s: State, default: int, id: nat)
    requires Inv(s, default)
    ensures Inv(Step(s, Stamp(id)), default)
  {
    var s' := Step(s, Stamp(id));
    if s' != s {
      assert OpOk(s, default, id);
      CurrentLeaseIsPast(s, default);
      QuietStepKeepsInv(s, s', default, id);
    }
  }

  lemma EndKeepsInv(s: State, default: int, a: Action)
    requires Inv(s, default) && (a.GiveUp? || a.Answer?)
    ensures Inv(Step(s, a), default)
  {
    var s' := Step(s, a);
    if s' != s {
      assert OpOk(s, default, a.op);
      QuietStepKeepsInv(s, s', default, a.op);
    }
  }

  lemma TickKeepsInv(s: State, default: int, d: nat)
    requires Inv(s, default)
    ensures Inv(s.(now := s.now + d), default)
  {
    var s' := s.(now := s.now + d);
    forall k | 0 <= k < |s'.history| ensures TenureOk(s', k) { assert TenureOk(s, k); }
    forall i | i in s'.ops ensures OpOk(s', default, i) { OtherCallsAreStable(s, s', default, i); }
  }

  lemma StepKeepsInv(s: State, a: Action, default: int)
    requires Inv(s, default)
    requires a.Begin? ==> a.default >= default
    ensures Inv(Step(s, a), default)
  {
    match a {
      case Tick(d) => TickKeepsInv(s, default, d);
      case Begin(id, _, _, _, _) =>
        if id !in s.ops { QuietStepKeepsInv(s, Step(s, a), default, id); }
      case Get(id, answered) => GetKeepsInv(s, default, id, answered);
      case Create(id, reached, answered) =>
        if id in s.ops && s.ops[id].phase.Creating? { CreateKeepsInv(s, default, id, reached, answered); }
      case Judge(id) => JudgeKeepsInv(s, default, id);
      case Stamp(id) => StampKeepsInv(s, default, id);
      case Deliver(id) =>
        if id in s.ops && s.ops[id].phase.Writing? { DeliverKeepsInv(s, default, id); }
      case GiveUp(_) => EndKeepsInv(s, default, a);
      case Answer(_, _) => EndKeepsInv(s, default, a);
    }
  }

  lemma StepInterferes(s: State, a: Action, default: int)
    requires Inv(s, default)
    ensures Interferes(s, Step(s, a))
  {
    if a.Deliver? && a.op in s.ops && s.ops[a.op].phase.Writing? { assert OpOk(s, default, a.op); }
  }

  /** A step of time or of another call leaves a call in progress as it is, with everything it relies on. */
  lemma OtherStepsAreStable(s: State, a: Action, default: int, id: nat)
    requires Inv(s, default) && id in s.ops && (a.Tick? || a.op != id)
    ensures var s' := Step(s, a); id in s'.ops && s'.ops[id] == s.ops[id] && OpOk(s', default, id)
  {
    assert OpOk(s, default, id);
    StepInterferes(s, a, default);
    OtherCallsAreStable(s, Step(s, a), default, id);
  }

  lemma {:induction false} RunKeepsInv(s: State, acts: seq<Action>, default: int)
    requires Inv(s, default) && DefaultsAtLeast(acts, default)
    ensures Inv(Exec(s, acts), default)
    decreases |acts|
  {
    if acts != [] {
      StepKeepsInv(s, acts[0], default);
      RunKeepsInv(Step(s, acts[0]), acts[1..], default);
    }
  }
}
