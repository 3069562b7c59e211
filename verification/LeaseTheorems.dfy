/** What holds of every run of the lease protocol. */
module LeaseTheorems {
  import opened Common
  import opened LeaseProtocol

  // ---------------------------------------------------------------------
  // Running
  // ---------------------------------------------------------------------

  lemma {:induction false} ExecConcat(s: State, a: seq<Action>, b: seq<Action>)
    ensures Exec(s, a + b) == Exec(Exec(s, a), b)
    decreases |a|
  {
    if a == [] {
      assert a + b == b;
    } else {
      assert (a + b)[1..] == a[1..] + b;
      ExecConcat(Step(s, a[0]), a[1..], b);
    }
  }

  lemma Reachable(start: int, acts: seq<Action>, default: int)
    requires DefaultsAtLeast(acts, default)
    ensures Inv(Exec(Init(start), acts), default)
  {
    RunKeepsInv(Init(start), acts, default);
  }

  // ---------------------------------------------------------------------
  // Mutual exclusion
  // ---------------------------------------------------------------------

  /** No instant lies in the hold windows of two tenures. */
  ghost predicate Exclusive(h: seq<Tenure>, default: int) {
    forall i, j, t :: 0 <= i < |h| && 0 <= j < |h| && Holds(h[i], default, t) && Holds(h[j], default, t) ==> i == j
  }

  lemma MutualExclusion(start: int, acts: seq<Action>, default: int)
    requires DefaultsAtLeast(acts, default)
    ensures Exclusive(Exec(Init(start), acts).history, default)
    ensures Ordered(Exec(Init(start), acts).history, default)
  {
    Reachable(start, acts, default);
  }

  /** The lease as getOrCreateLease would return it. */
  function Current(s: State): Lease {
    match s.store
    case Missing => FRESH_LEASE
    case Present(_, lease) => lease
  }

  /** Time that passes in a call: before its expiry check, its stamp, and the arrival of its write. */
  datatype Pauses = Pauses(judge: nat, stamp: nat, write: nat)

  const NO_PAUSES := Pauses(0, 0, 0)

  /** One call of Lock that no other call interrupts. */
  function SoloLock(id: nat, client: string, ttl: Option<int>, default: int, p: Pauses): seq<Action> {
    SoloRead(id, client, ttl, default) + SoloWrite(id, p)
  }

  function SoloRead(id: nat, client: string, ttl: Option<int>, default: int): seq<Action> {
    [Begin(id, Lock, client, ttl, default), Get(id, true), Create(id, true, true), Get(id, true)]
  }

  function SoloWrite(id: nat, p: Pauses): seq<Action> {
    [Tick(p.judge), Judge(id), Tick(p.stamp), Stamp(id)] + SoloDelivery(id, p)
  }

  function SoloDelivery(id: nat, p: Pauses): seq<Action> {
    [Tick(p.write), Deliver(id)] + [Answer(id, false)]
  }

  lemma Exec1(s: State, a: Action)
    ensures Exec(s, [a]) == Step(s, a)
  {
    assert [a][1..] == [];
    assert Exec(Step(s, a), []) == Step(s, a);
  }

  lemma Exec2(s: State, a: Action, b: Action)
    ensures Exec(s, [a, b]) == Step(Step(s, a), b)
  {
    assert [a, b][1..] == [b];
    Exec1(Step(s, a), b);
  }

  lemma Exec3(s: State, a: Action, b: Action, c: Action)
    ensures Exec(s, [a, b] + [c]) == Step(Step(Step(s, a), b), c)
  {
    ExecConcat(s, [a, b], [c]);
    Exec2(s, a, b);
    Exec1(Step(Step(s, a), b), c);
  }

  lemma Exec4(s: State, a: Action, b: Action, c: Action, d: Action)
    ensures Exec(s, [a, b, c, d]) == Step(Step(Step(Step(s, a), b), c), d)
  {
    assert [a, b, c, d] == [a, b] + [c, d];
    ExecConcat(s, [a, b], [c, d]);
    Exec2(s, a, b);
    Exec2(Step(Step(s, a), b), c, d);
  }

  lemma SoloReadEffect(s: State, id: nat, client: string, ttl: Option<int>, default: int)
    requires id !in s.ops
    ensures var s' := Exec(s, SoloRead(id, client, ttl, default));
            && s'.now == s.now && s'.ops.Keys == s.ops.Keys + {id} && s'.history == s.history
            && s'.store == Present(if s.store.Missing? then 0 else s.store.version, Current(s))
            && s'.ops[id] == Op(Lock, client, ttl, default, Judging(s'.store.version, Current(s)), None)
  {
    var acts := SoloRead(id, client, ttl, default);
    Exec4(s, acts[0], acts[1], acts[2], acts[3]);
    var s1 := Step(s, acts[0]);
    var s2 := Step(s1, acts[1]);
    if s.store.Missing? {
      assert s2.ops[id].phase == Creating;
    } else {
      assert s2.ops[id].phase == Judging(s.store.version, s.store.lease);
    }
  }

  lemma SoloDeliveryEffect(s: State, id: nat, p: Pauses)
    ensures Exec(s, SoloDelivery(id, p))
            == Step(Step(Step(s, Tick(p.write)), Deliver(id)), Answer(id, false))
  {
    Exec3(s, Tick(p.write), Deliver(id), Answer(id, false));
  }

  lemma SoloJudgeEffect(s: State, id: nat, p: Pauses)
    requires id in s.ops && s.ops[id].kind.Lock? && s.store.Present?
    requires s.ops[id].phase == Judging(s.store.version, s.store.lease)
    ensures var s' := Exec(s, [Tick(p.judge), Judge(id), Tick(p.stamp), Stamp(id)]);
            var o, judged := s.ops[id], s.now + p.judge;
            var stamp := judged + p.stamp;
            && s'.now == stamp && s'.store == s.store && s'.history == s.history
            && s'.ops == s.ops[id := o.(phase :=
                 if Takeable(s.store.lease, o.default, judged) then
                   Writing(s.store.version, s.store.lease, AcquiredLease(s.store.lease, o.client, o.ttl, stamp), false)
                 else Done(AlreadyHeld))]
  {
    Exec4(s, Tick(p.judge), Judge(id), Tick(p.stamp), Stamp(id));
  }

  /** What a call in flight does when it is delivered and answered. */
  lemma SoloWriteEffect(s: State, id: nat, p: Pauses)
    requires id in s.ops && s.ops[id].kind.Lock? && s.store.Present?
    requires s.ops[id].phase == Judging(s.store.version, s.store.lease)
    ensures var s' := Exec(s, SoloWrite(id, p));
            var o, judged := s.ops[id], s.now + p.judge;
            var free, stamp := Takeable(s.store.lease, o.default, judged), judged + p.stamp;
            && s'.now == stamp + p.write && s'.ops.Keys == s.ops.Keys
            && s'.ops[id].phase == Done(if free then Succeeded else AlreadyHeld)
            && (free ==> s'.store.Present?
                         && s'.store.lease == AcquiredLease(s.store.lease, o.client, o.ttl, stamp)
                         && s'.history == s.history + [Tenure(id, o.client, stamp, stamp, s'.store.lease.duration, None,
                                                              s'.store.lease.transitions.value)])
            && (!free ==> s'.store == s.store && s'.history == s.history)
  {
    var judging := [Tick(p.judge), Judge(id), Tick(p.stamp), Stamp(id)];
    ExecConcat(s, judging, SoloDelivery(id, p));
    SoloJudgeEffect(s, id, p);
    SoloDeliveryEffect(Exec(s, judging), id, p);
  }

  /**
   An undisturbed Lock, however long its steps take, succeeds exactly when nobody
   holds the lease or the holder's time is up at its expiry check, and otherwise
   reports ErrAlreadyHeld and changes nothing.
   */
  lemma UndisturbedLock(s: State, id: nat, client: string, ttl: Option<int>, default: int, p: Pauses)
    requires id !in s.ops
    ensures var s', judged := Exec(s, SoloLock(id, client, ttl, default, p)), s.now + p.judge;
            var free, stamp := Takeable(Current(s), default, judged), judged + p.stamp;
            && s'.now == stamp + p.write && s'.ops.Keys == s.ops.Keys + {id}
            && s'.ops[id].Returned() == Some(if free then Succeeded else AlreadyHeld)
            && (free ==> Current(s') == AcquiredLease(Current(s), client, ttl, stamp)
                         && s'.history == s.history + [Tenure(id, client, stamp, stamp, Current(s').duration, None,
                                                              Current(s').transitions.value)])
            && (!free ==> s'.store == s.store && s'.history == s.history)
  {
    SoloReadEffect(s, id, client, ttl, default);
    SoloWriteEffect(Exec(s, SoloRead(id, client, ttl, default)), id, p);
    ExecConcat(s, SoloRead(id, client, ttl, default), SoloWrite(id, p));
  }

  /** The lease a Lock finds: the stored one, or a new one that nobody holds. */
  function Found(s: State): Lease {
    if s.store.Missing? then Lease(None, None, None, Some(0), None) else s.store.lease
  }

  /** d seconds are what a Lock with this TTL in nanoseconds stores, or else leaves stored. */
  predicate StoresSeconds(ttl: Option<int>, before: Option<int>, after: Option<int>) {
    if ttl.Some? && ttl.value >= 1_000_000_000 then
      after.Some? && after.value * 1_000_000_000 <= ttl.value < (after.value + 1) * 1_000_000_000
    else if ttl.Some? && ttl.value > 0 then after == Some(1)
    else after == before
  }

  lemma WholeSeconds(nanos: int)
    requires nanos > 0
    ensures StoresSeconds(Some(nanos), None, TtlSeconds(Some(nanos)))
  {
  }

  /**
   The same in plain figures: when the lease may be taken, with the stored seconds
   or else the caller's own, and every field of the lease that is then stored.
   */
  lemma LockStores(s: State, id: nat, client: string, ttl: Option<int>, default: int, p: Pauses)
    requires id !in s.ops
    ensures var s', before := Exec(s, SoloLock(id, client, ttl, default, p)), Found(s);
            var seconds := if before.duration.Some? then before.duration.value else default;
            && id in s'.ops
            && (s'.ops[id].Returned() == Some(Succeeded) <==>
                  before.holder.None? || before.renewTime.None?
                  || s.now + p.judge >= before.renewTime.value + 1_000_000 * seconds)
            && (s'.ops[id].Returned() == Some(Succeeded) ==>
                  var stamp, l := s.now + p.judge + p.stamp, Found(s');
                  && s'.store.Present?
                  && l.holder == Some(client) && l.acquireTime == l.renewTime == Some(stamp)
                  && StoresSeconds(ttl, before.duration, l.duration)
                  && l.transitions.Some?
                  && (before.transitions.Some? && 0 <= before.transitions.value < 0x7fff_ffff ==>
                        l.transitions.value == before.transitions.value + 1)
                  && (before.transitions.None? ==> l.transitions.value == 1))
  {
    UndisturbedLock(s, id, client, ttl, default, p);
    if ttl.Some? && ttl.value > 0 { WholeSeconds(ttl.value); }
  }

  /**
   Over two calls: after an acquisition at its stamp, a second Lock succeeds if and
   only if its expiry check comes d seconds after that stamp or later, where d is
   what the first call stored, or the second caller's own default if nothing is stored.
   */
  lemma NextLockWaitsItsSeconds(s: State, id: nat, client: string, ttl: Option<int>, default: int, p: Pauses,
                                next: nat, rival: string, rivalTtl: Option<int>, rivalDefault: int, q: Pauses, d: int)
    requires id !in s.ops && next !in s.ops && next != id
    requires var held := Exec(s, SoloLock(id, client, ttl, default, p));
             id in held.ops && held.ops[id].Returned() == Some(Succeeded)
    requires var kept := if Found(s).duration.Some? then Found(s).duration.value else rivalDefault;
             if ttl.Some? && ttl.value >= 1_000_000_000 then
               d * 1_000_000_000 <= ttl.value < (d + 1) * 1_000_000_000
             else if ttl.Some? && ttl.value > 0 then d == 1
             else d == kept
    ensures var held := Exec(s, SoloLock(id, client, ttl, default, p));
            var s', stamp := Exec(held, SoloLock(next, rival, rivalTtl, rivalDefault, q)), s.now + p.judge + p.stamp;
            && next in s'.ops
            && (s'.ops[next].Returned() == Some(Succeeded) <==> held.now + q.judge >= stamp + 1_000_000 * d)
  {
    var held := Exec(s, SoloLock(id, client, ttl, default, p));
    LockStores(s, id, client, ttl, default, p);
    UndisturbedLock(s, id, client, ttl, default, p);
    LockStores(held, next, rival, rivalTtl, rivalDefault, q);
  }

  /** Waiting does not lose a free lease: what can be taken now can be taken later. */
  lemma TakeableStays(lease: Lease, default: int, now: int, later: int)
    requires Takeable(lease, default, now) && now <= later
    ensures Takeable(lease, default, later)
  {
  }

  /** One call of RenewLock that no other call interrupts. */
  function SoloRenew(id: nat, client: string, ttl: Option<int>, default: int, p: Pauses): seq<Action> {
    [Begin(id, Renew, client, ttl, default), Get(id, true), Tick(p.stamp), Stamp(id)] + SoloDelivery(id, p)
  }

  /** One call of Unlock that no other call interrupts. */
  function SoloUnlock(id: nat, client: string, ttl: Option<int>, default: int, p: Pauses): seq<Action> {
    [Begin(id, Unlock, client, ttl, default), Get(id, true)] + SoloDelivery(id, p)
  }

  ghost predicate StoredUnder(s: State, client: string) {
    s.store.Present? && HeldBy(s.store.lease, client)
  }

  lemma SoloRenewEffect(s: State, id: nat, client: string, ttl: Option<int>, default: int, p: Pauses)
    requires id !in s.ops
    ensures var s' := Exec(s, [Begin(id, Renew, client, ttl, default), Get(id, true), Tick(p.stamp), Stamp(id)]);
            var stamp := s.now + p.stamp;
            && s'.now == stamp && s'.store == s.store && s'.history == s.history
            && s'.ops == s.ops[id := Op(Renew, client, ttl, default,
                 if StoredUnder(s, client) then
                   Writing(s.store.version, s.store.lease, RenewedLease(s.store.lease, stamp), false)
                 else Done(Failed), None)]
  {
    var acts := [Begin(id, Renew, client, ttl, default), Get(id, true), Tick(p.stamp), Stamp(id)];
    Exec4(s, acts[0], acts[1], acts[2], acts[3]);
  }

  /**
   An undisturbed RenewLock succeeds exactly when the lease is stored under the
   caller's own non-empty ID, expired or not; it then writes the new renew time
   and nothing else, and otherwise fails and changes nothing.
   */
  lemma UndisturbedRenew(s: State, id: nat, client: string, ttl: Option<int>, default: int, p: Pauses)
    requires id !in s.ops
    ensures var s', stamp := Exec(s, SoloRenew(id, client, ttl, default, p)), s.now + p.stamp;
            && s'.now == stamp + p.write && s'.ops.Keys == s.ops.Keys + {id}
            && s'.ops[id].Returned() == Some(if StoredUnder(s, client) then Succeeded else Failed)
            && (StoredUnder(s, client) ==>
                  && s'.store == Present(s.store.version + 1, RenewedLease(s.store.lease, stamp))
                  && |s'.history| == |s.history|
                  && (s.history != [] ==>
                        var t := s.history[|s.history| - 1];
                        s'.history == s.history[|s.history| - 1 := t.(renewed := stamp)]))
            && (!StoredUnder(s, client) ==> s'.store == s.store && s'.history == s.history)
  {
    var acts := [Begin(id, Renew, client, ttl, default), Get(id, true), Tick(p.stamp), Stamp(id)];
    ExecConcat(s, acts, SoloDelivery(id, p));
    SoloRenewEffect(s, id, client, ttl, default, p);
    SoloDeliveryEffect(Exec(s, acts), id, p);
  }

  /** In plain figures: a renew moves the renew time and leaves every other field. */
  lemma RenewStores(s: State, id: nat, client: string, ttl: Option<int>, default: int, p: Pauses)
    requires id !in s.ops
    ensures var s' := Exec(s, SoloRenew(id, client, ttl, default, p));
            && id in s'.ops
            && (s'.ops[id].Returned() == Some(Succeeded) <==>
                  s.store.Present? && s.store.lease.holder == Some(client) && client != "")
            && (s'.ops[id].Returned() == Some(Succeeded) ==>
                  && s'.store.Present?
                  && var l, l' := s.store.lease, s'.store.lease;
                  && l'.renewTime == Some(s.now + p.stamp)
                  && l'.holder == l.holder && l'.acquireTime == l.acquireTime
                  && l'.transitions == l.transitions && l'.duration == l.duration)
  {
    UndisturbedRenew(s, id, client, ttl, default, p);
  }

  lemma SoloUnlockEffect(s: State, id: nat, client: string, ttl: Option<int>, default: int)
    requires id !in s.ops
    ensures var s' := Exec(s, [Begin(id, Unlock, client, ttl, default), Get(id, true)]);
            && s'.now == s.now && s'.store == s.store && s'.history == s.history
            && s'.ops == s.ops[id := Op(Unlock, client, ttl, default,
                 if StoredUnder(s, client) then
                   Writing(s.store.version, s.store.lease, ReleasedLease(s.store.lease), false)
                 else Done(Failed), None)]
  {
    Exec2(s, Begin(id, Unlock, client, ttl, default), Get(id, true));
  }

  /**
   An undisturbed Unlock succeeds exactly when the lease is stored under the
   caller's own non-empty ID, and then frees it; otherwise it fails and changes
   nothing.
   */
  lemma UndisturbedUnlock(s: State, id: nat, client: string, ttl: Option<int>, default: int, p: Pauses)
    requires id !in s.ops
    ensures var s' := Exec(s, SoloUnlock(id, client, ttl, default, p));
            && s'.now == s.now + p.write && s'.ops.Keys == s.ops.Keys + {id}
            && s'.ops[id].Returned() == Some(if StoredUnder(s, client) then Succeeded else Failed)
            && (StoredUnder(s, client) ==>
                  && s'.store == Present(s.store.version + 1, ReleasedLease(s.store.lease))
                  && |s'.history| == |s.history|
                  && (s.history != [] ==>
                        var t := s.history[|s.history| - 1];
                        s'.history == s.history[|s.history| - 1 := t.(released := Some(s'.now))]))
            && (!StoredUnder(s, client) ==> s'.store == s.store && s'.history == s.history)
  {
    var acts := [Begin(id, Unlock, client, ttl, default), Get(id, true)];
    ExecConcat(s, acts, SoloDelivery(id, p));
    SoloUnlockEffect(s, id, client, ttl, default);
    SoloDeliveryEffect(Exec(s, acts), id, p);
  }

  /** In plain figures: an unlock clears every field but the number of transitions. */
  lemma UnlockStores(s: State, id: nat, client: string, ttl: Option<int>, default: int, p: Pauses)
    requires id !in s.ops
    ensures var s' := Exec(s, SoloUnlock(id, client, ttl, default, p));
            && id in s'.ops
            && (s'.ops[id].Returned() == Some(Succeeded) <==>
                  s.store.Present? && s.store.lease.holder == Some(client) && client != "")
            && (s'.ops[id].Returned() == Some(Succeeded) ==>
                  && s'.store.Present?
                  && var l' := s'.store.lease;
                  && l'.holder == None && l'.acquireTime == None && l'.renewTime == None && l'.duration == None
                  && l'.transitions == s.store.lease.transitions)
  {
    UndisturbedUnlock(s, id, client, ttl, default, p);
  }

  /** One call of NewLocker that no other call interrupts. */
  function SoloNew(id: nat, client: string, ttl: Option<int>, default: int): seq<Action> {
    [Begin(id, New, client, ttl, default), Get(id, true)] + [Create(id, true, true)]
  }

  /** NewLocker leaves a stored lease alone and creates a missing one unheld, with number 0. */
  lemma UndisturbedNew(s: State, id: nat, client: string, ttl: Option<int>, default: int)
    requires id !in s.ops
    ensures var s' := Exec(s, SoloNew(id, client, ttl, default));
            && id in s'.ops && s'.ops[id].Returned() == Some(Succeeded) && s'.history == s.history
            && s'.store == if s.store.Missing? then Present(0, Lease(None, None, None, Some(0), None)) else s.store
  {
    Exec3(s, Begin(id, New, client, ttl, default), Get(id, true), Create(id, true, true));
  }

  /** Having found no lease, NewLocker fails when another call creates it first; Lock reads that one. */
  lemma LosingTheCreation(s: State, id: nat, other: nat, reached: bool)
    requires id in s.ops && other in s.ops && id != other && s.store.Missing?
    requires s.ops[id].phase.Creating? && s.ops[other].phase.Creating?
    requires s.ops[id].kind.New? || s.ops[id].kind.Lock?
    ensures var s' := Exec(s, [Create(other, true, reached), Create(id, true, true)]);
            && s'.store == Present(0, Lease(None, None, None, Some(0), None)) && id in s'.ops
            && (s.ops[id].kind.New? ==> s'.ops[id].Returned() == Some(Failed))
            && (s.ops[id].kind.Lock? ==> s'.ops[id].phase.Regetting?)
  {
    Exec2(s, Create(other, true, reached), Create(id, true, true));
  }

  /** Whoever acquires a free lease can renew and unlock it exactly when its client ID is not empty. */
  lemma AcquirerRenewsAndUnlocksIff(s: State, id: nat, next: nat, client: string, ttl: Option<int>, default: int,
                                    p: Pauses, q: Pauses)
    requires id !in s.ops && next !in s.ops && id != next && Takeable(Current(s), default, s.now)
    ensures var held := Exec(s, SoloLock(id, client, ttl, default, p));
            var r := Some(if client != "" then Succeeded else Failed);
            && id in held.ops && held.ops[id].Returned() == Some(Succeeded)
            && (var s' := Exec(held, SoloRenew(next, client, ttl, default, q));
                next in s'.ops && s'.ops[next].Returned() == r)
            && (var s' := Exec(held, SoloUnlock(next, client, ttl, default, q));
                next in s'.ops && s'.ops[next].Returned() == r)
  {
    TakeableStays(Current(s), default, s.now, s.now + p.judge);
    UndisturbedLock(s, id, client, ttl, default, p);
    var held := Exec(s, SoloLock(id, client, ttl, default, p));
    UndisturbedRenew(held, next, client, ttl, default, q);
    UndisturbedUnlock(held, next, client, ttl, default, q);
  }

  /** The seconds b waits before it takes over. */
  function ShortWait(short: int): nat {
    if short > 0 then MICROS_PER_SECOND * short else 0
  }

  /** What b does after a has acquired the lease. */
  function TakeOver(short: int): seq<Action> {
    [Tick(ShortWait(short))] + SoloLock(1, "b", None, short, NO_PAUSES)
  }

  /** The run in which b, judging by `short`, takes over from a, who counts on `default`. */
  function ShortJudgeRun(default: int, short: int): seq<Action> {
    SoloLock(0, "a", None, default, NO_PAUSES) + TakeOver(short)
  }

  lemma FirstAcquires(default: int)
    ensures var s := Exec(Init(0), SoloLock(0, "a", None, default, NO_PAUSES));
            && s.now == 0 && s.ops.Keys == {0}
            && s.history == [Tenure(0, "a", 0, 0, None, None, 1)]
            && Current(s) == Lease(Some("a"), Some(0), Some(0), Some(1), None)
  {
    UndisturbedLock(Init(0), 0, "a", None, default, NO_PAUSES);
  }

  lemma SecondTakesOver(s: State, short: int)
    requires s.now == 0 && s.ops.Keys == {0} && |s.history| == 1
    requires Current(s) == Lease(Some("a"), Some(0), Some(0), Some(1), None)
    ensures var s' := Exec(s, TakeOver(short)); var wait := ShortWait(short);
            s'.history == s.history + [Tenure(1, "b", wait, wait, None, None, 2)]
  {
    var s1 := Step(s, Tick(ShortWait(short)));
    UndisturbedLock(s1, 1, "b", None, short, NO_PAUSES);
    assert TakeOver(short)[1..] == SoloLock(1, "b", None, short, NO_PAUSES);
    assert Current(s1) == Current(s);
  }

  lemma BothHold(default: int, wait: int)
    requires 0 <= wait < MICROS_PER_SECOND * default
    ensures !Exclusive([Tenure(0, "a", 0, 0, None, None, 1), Tenure(1, "b", wait, wait, None, None, 2)], default)
  {
    var h := [Tenure(0, "a", 0, 0, None, None, 1), Tenure(1, "b", wait, wait, None, None, 2)];
    assert Holds(h[0], default, wait) && Holds(h[1], default, wait);
  }

  lemma ShortRunDefaults(default: int, short: int)
    requires short < default
    ensures DefaultsAtLeast(ShortJudgeRun(default, short), short)
  {
  }

  lemma ShortJudgeBreaksExclusion(default: int, short: int)
    requires 0 < default && short < default
    ensures DefaultsAtLeast(ShortJudgeRun(default, short), short)
    ensures !Exclusive(Exec(Init(0), ShortJudgeRun(default, short)).history, default)
  {
    ShortRunDefaults(default, short);
    var s := Exec(Init(0), SoloLock(0, "a", None, default, NO_PAUSES));
    FirstAcquires(default);
    SecondTakesOver(s, short);
    ExecConcat(Init(0), SoloLock(0, "a", None, default, NO_PAUSES), TakeOver(short));
    BothHold(default, ShortWait(short));
    var wait := ShortWait(short);
    assert Exec(s, TakeOver(short)).history
           == [Tenure(0, "a", 0, 0, None, None, 1), Tenure(1, "b", wait, wait, None, None, 2)];
  }

  /**
   Clients need not agree on the default duration for mutual exclusion, but
   nobody may judge by less than what a holder without a TTL counts on.
   */
  lemma ExclusionIffNobodyJudgesShort(default: int, shortest: int)
    requires default > 0
    ensures (forall start, acts :: DefaultsAtLeast(acts, shortest) ==>
               Exclusive(Exec(Init(start), acts).history, default))
            <==> default <= shortest
  {
    if default <= shortest {
      forall start, acts | DefaultsAtLeast(acts, shortest)
        ensures Exclusive(Exec(Init(start), acts).history, default)
      {
        MutualExclusion(start, acts, default);
      }
    } else {
      ShortJudgeBreaksExclusion(default, shortest);
    }
  }

  // ---------------------------------------------------------------------
  // Who may write, and what
  // ---------------------------------------------------------------------

  /** The lease operations as one indivisible step each, on the lease stored at that instant. */
  ghost predicate AtomicWrite(s: State, o: Op, s': State) {
    && s.store.Present? && s'.store.Present? && s'.store.version == s.store.version + 1
    && match o.kind
       case New => false
       case Lock =>
         && |s'.history| == |s.history| + 1
         && var t := s'.history[|s.history|];
         && s'.history == s.history + [t]
         && t.acquired == t.renewed <= s.now && t.client == o.client
         && (s.history != [] ==> s.history[|s.history| - 1].acquired <= t.acquired)
         && Takeable(s.store.lease, o.default, t.acquired)
         && s'.store.lease == AcquiredLease(s.store.lease, o.client, o.ttl, t.acquired)
       case Renew =>
         && HeldBy(s.store.lease, o.client)
         && |s'.history| == |s.history| > 0
         && var t, t' := s.history[|s.history| - 1], s'.history[|s.history| - 1];
         && t.client == o.client && t.released.None? && t.renewed <= t'.renewed <= s.now
         && t' == t.(renewed := t'.renewed) && s'.history == s.history[|s.history| - 1 := t']
         && s'.store.lease == RenewedLease(s.store.lease, t'.renewed)
       case Unlock =>
         && HeldBy(s.store.lease, o.client)
         && |s'.history| == |s.history| > 0
         && var t := s.history[|s.history| - 1];
         && t.client == o.client && t.released.None?
         && s'.history == s.history[|s.history| - 1 := t.(released := Some(s.now))]
         && s'.store.lease == ReleasedLease(s.store.lease)
  }

  /**
   A step changes a stored lease only as an indivisible lease operation of its
   caller: no update is lost, and only the stored holder renews or unlocks.
   */
  lemma EveryWriteIsAtomic(s: State, a: Action, default: int)
    requires Inv(s, default)
    ensures var s' := Step(s, a);
            s.store.Present? && (s'.store != s.store || s'.history != s.history) ==>
              a.Deliver? && a.op in s.ops && AtomicWrite(s, s.ops[a.op], s')
  {
    if s.store.Present? && a.Deliver? && a.op in s.ops && s.ops[a.op].phase.Writing? {
      assert OpOk(s, default, a.op);
      EarlierTenureIsPast(s, default, a.op);
    }
  }

  lemma EarlierTenureIsPast(s: State, default: int, id: nat)
    requires Inv(s, default) && id in s.ops && s.ops[id].phase.Writing?
    ensures s.ops[id].kind.Lock? && Lands(s.store, s.ops[id].phase.version) && s.history != [] ==>
              s.history[|s.history| - 1].acquired <= s.ops[id].phase.next.renewTime.value
  {
    assert OpOk(s, default, id);
    if s.history != [] { assert TenureOk(s, |s.history| - 1); }
  }

  /** Once created, the lease is never created again, and a version never returns. */
  lemma {:induction false} StoreMovesForward(s: State, acts: seq<Action>)
    ensures var s' := Exec(s, acts);
            && s.now <= s'.now
            && (s.store.Present? ==>
                  && s'.store.Present? && s.store.version <= s'.store.version
                  && (s'.store.version == s.store.version ==> s'.store == s.store && s'.history == s.history))
    decreases |acts|
  {
    if acts != [] {
      StoreMovesForward(Step(s, acts[0]), acts[1..]);
    }
  }

  /** A call whose write was computed from a version that is gone, or that was turned away. */
  ghost predicate Stale(s: State, id: nat) {
    && id in s.ops
    && s.store.Present?
    && match s.ops[id].phase
       case Writing(v, _, _, _) => v < s.store.version
       case Answering(applied) => !applied
       case Done(r) => r.Failed? || (r.AlreadyHeld? && s.ops[id].kind.Lock?)
       case _ => false
  }

  /** However long a stale request lingers, it changes nothing and its caller never sees success. */
  lemma {:induction false} StaleForever(s: State, acts: seq<Action>, id: nat)
    requires Stale(s, id)
    ensures var s' := Exec(s, acts);
            && Stale(s', id)
            && Step(s', Deliver(id)).store == s'.store && Step(s', Deliver(id)).history == s'.history
            && s'.ops[id].Returned() in {None, Some(Failed), Some(AlreadyHeld)}
            && s'.ops[id].kind == s.ops[id].kind
    decreases |acts|
  {
    if acts != [] {
      StaleForever(Step(s, acts[0]), acts[1..], id);
    }
  }

  /**
   Of all calls writing from the same version, whoever lands first makes every
   other one stale for good.
   */
  lemma FirstWriteWins(s: State, first: nat, other: nat, acts: seq<Action>)
    requires first in s.ops && other in s.ops && first != other
    requires s.ops[first].phase.Writing? && s.ops[other].phase.Writing?
    requires s.ops[first].phase.version == s.ops[other].phase.version
    requires Lands(s.store, s.ops[first].phase.version)
    ensures Step(s, Deliver(first)).store == Present(s.store.version + 1, s.ops[first].phase.next)
    ensures Stale(Exec(Step(s, Deliver(first)), acts), other)
  {
    StaleForever(Step(s, Deliver(first)), acts, other);
  }

  /** A Lock that lost the race and hears back is told ErrAlreadyHeld. */
  lemma LoserIsToldAlreadyHeld(s: State, id: nat)
    requires Stale(s, id) && s.ops[id].kind.Lock?
    requires s.ops[id].phase.Writing? && !s.ops[id].phase.gaveUp
    ensures var s' := Exec(s, [Deliver(id), Answer(id, false)]);
            id in s'.ops && s'.ops[id].Returned() == Some(AlreadyHeld) && s'.store == s.store && s'.history == s.history
  {
    Exec2(s, Deliver(id), Answer(id, false));
  }

  // ---------------------------------------------------------------------
  // Tenures
  // ---------------------------------------------------------------------

  /** Closed tenures are frozen; the open one is only renewed forward or released. */
  ghost predicate Evolves(h: seq<Tenure>, h': seq<Tenure>) {
    && |h| <= |h'|
    && (forall k :: 0 <= k < |h| - 1 ==> h'[k] == h[k])
    && (h != [] ==>
          var t, t' := h[|h| - 1], h'[|h| - 1];
          && t' == t.(renewed := t'.renewed, released := t'.released)
          && t.renewed <= t'.renewed
          && (t.released.Some? ==> t' == t))
  }

  lemma StepEvolves(s: State, a: Action, default: int)
    requires Inv(s, default)
    ensures Evolves(s.history, Step(s, a).history)
  {
    EveryWriteIsAtomic(s, a, default);
  }

  /** In one tenure the renew time never goes back, and an ended tenure never changes. */
  lemma {:induction false} TenuresEvolve(s: State, acts: seq<Action>, default: int)
    requires Inv(s, default) && DefaultsAtLeast(acts, default)
    ensures Evolves(s.history, Exec(s, acts).history)
    decreases |acts|
  {
    if acts != [] {
      var s1 := Step(s, acts[0]);
      StepKeepsInv(s, acts[0], default);
      StepEvolves(s, acts[0], default);
      TenuresEvolve(s1, acts[1..], default);
    }
  }

  // ---------------------------------------------------------------------
  // Fencing
  // ---------------------------------------------------------------------

  /**
   Every caller that was told success has the tenure to show for it: the one it
   acquired, the one it renewed at its stamp or later, or the one it released.
   */
  lemma SuccessIsOnRecord(start: int, acts: seq<Action>, default: int, id: nat)
    requires DefaultsAtLeast(acts, default)
    requires var s := Exec(Init(start), acts);
             id in s.ops && !s.ops[id].kind.New? && s.ops[id].Returned() == Some(Succeeded)
    ensures var s := Exec(Init(start), acts);
            && s.ops[id].landing.Some?
            && OnRecord(s.history, id, s.ops[id], s.ops[id].landing.value)
  {
    Reachable(start, acts, default);
    assert OpOk(Exec(Init(start), acts), default, id);
  }

  /** LeaseTransitions counts the acquisitions since creation, as an int32. */
  lemma TransitionsCountAcquisitions(start: int, acts: seq<Action>, default: int)
    requires DefaultsAtLeast(acts, default)
    ensures var s := Exec(Init(start), acts);
            && (s.store.Present? ==> s.store.lease.transitions == Some(Wrap32(|s.history|)))
            && (forall k :: 0 <= k < |s.history| ==> s.history[k].token == Wrap32(k + 1))
  {
    Reachable(start, acts, default);
    var s := Exec(Init(start), acts);
    forall k | 0 <= k < |s.history| ensures s.history[k].token == Wrap32(k + 1) {
      assert TenureOk(s, k);
    }
  }

  ghost predicate TokensIncrease(h: seq<Tenure>) {
    forall i, j :: 0 <= i < j < |h| ==> h[i].token < h[j].token
  }

  /** A later owner has the larger number as long as int32 is not exhausted, and not beyond. */
  lemma FencingTokens(start: int, acts: seq<Action>, default: int)
    requires DefaultsAtLeast(acts, default)
    ensures var h := Exec(Init(start), acts).history;
            && (TokensIncrease(h) <==> |h| < 0x8000_0000)
            && (forall i, j :: 0 <= i < j < |h| && j - i < TWO32 ==> h[i].token != h[j].token)
  {
    TransitionsCountAcquisitions(start, acts, default);
    var h := Exec(Init(start), acts).history;
    if |h| >= 0x8000_0000 {
      assert h[0].token == 1 && h[0x7fff_ffff].token == -0x8000_0000;
    }
    forall i, j | 0 <= i < j < |h| && j - i < TWO32 ensures h[i].token != h[j].token {
      DistinctWraps(i + 1, j + 1);
    }
  }

  lemma DistinctWraps(a: int, b: int)
    requires 0 < b - a < TWO32
    ensures Wrap32(a) != Wrap32(b)
  {
    var x, y := (a + 0x8000_0000) / TWO32, (b + 0x8000_0000) / TWO32;
    assert Wrap32(b) - Wrap32(a) == b - a - TWO32 * (y - x);
  }

  // ---------------------------------------------------------------------
  // The empty client ID
  // ---------------------------------------------------------------------

  ghost predicate Nameless(s: State, id: nat) {
    && id in s.ops && s.ops[id].client == "" && (s.ops[id].kind.Renew? || s.ops[id].kind.Unlock?)
    && (s.ops[id].phase.Getting? || s.ops[id].phase == Done(Failed))
  }

  /** verifyLock reads an empty holder as no holder: under the empty ID nothing is ever renewed or unlocked. */
  lemma {:induction false} NamelessNeverRenews(s: State, acts: seq<Action>, id: nat)
    requires Nameless(s, id)
    ensures Nameless(Exec(s, acts), id)
    decreases |acts|
  {
    if acts != [] {
      NamelessNeverRenews(Step(s, acts[0]), acts[1..], id);
    }
  }
}
