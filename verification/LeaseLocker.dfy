/**
 NewLocker, Lock, RenewLock and Unlock as the code runs them, one request at a
 time, against a server that other callers use meanwhile.  Each method is
 proved to be one call of the protocol: whatever the others do between its
 requests, the server goes through a run of LeaseProtocol and the result
 returned is the outcome of the call in that run.
 */
module LeaseLocker {
  import opened Common
  import opened LeaseProtocol
  import opened LeaseTheorems

  ghost predicate Foreign(acts: seq<Action>, id: nat) {
    forall i :: 0 <= i < |acts| ==> acts[i].Tick? || acts[i].op != id
  }

  /** The environment actions that do not speak for call id. */
  function Others(acts: seq<Action>, id: nat): (r: seq<Action>)
    ensures Foreign(r, id)
  {
    if acts == [] then []
    else (if acts[0].Tick? || acts[0].op != id then [acts[0]] else []) + Others(acts[1..], id)
  }

  lemma {:induction false} ForeignKeepsCall(s: State, acts: seq<Action>, id: nat)
    requires Foreign(acts, id)
    ensures id in Exec(s, acts).ops <==> id in s.ops
    ensures id in s.ops ==> Exec(s, acts).ops[id] == s.ops[id]
    decreases |acts|
  {
    if acts != [] {
      assert acts[0].Tick? || acts[0].op != id;
      ForeignKeepsCall(Step(s, acts[0]), acts[1..], id);
    }
  }

  datatype UpdateReply = Accepted | Conflict | Lost

  /** The API server with the clock; trace is everything that happened since it started. */
  class ApiServer {
    var st: State
    ghost var trace: seq<Action>
    ghost const start: int

    ghost predicate Valid()
      reads this
    {
      st == Exec(Init(start), trace)
    }

    constructor (now: int)
      ensures Valid() && trace == [] && start == now
    {
      st, trace, start := Init(now), [], now;
    }

    method Do(a: Action)
      requires Valid()
      modifies this
      ensures Valid() && trace == old(trace) + [a] && st == Step(old(st), a)
    {
      ExecConcat(Init(start), trace, [a]);
      st, trace := Step(st, a), trace + [a];
    }

    /** Anything the other callers, the network and the clock may do. */
    method Interfere(id: nat)
      requires Valid()
      modifies this
      ensures Valid() && old(trace) <= trace
      ensures id in st.ops <==> id in old(st).ops
      ensures id in st.ops ==> st.ops[id] == old(st).ops[id]
    {
      var wild: seq<Action> := *;
      var acts := Others(wild, id);
      ForeignKeepsCall(st, acts, id);
      ExecConcat(Init(start), trace, acts);
      st, trace := Exec(st, acts), trace + acts;
    }

    method Begin(id: nat, kind: Kind, client: string, ttl: Option<int>, default: int)
      requires Valid() && id !in st.ops
      modifies this
      ensures Valid() && old(trace) <= trace
      ensures id in st.ops && st.ops[id] == Op(kind, client, ttl, default, Getting, None)
    {
      Interfere(id);
      Do(LeaseProtocol.Begin(id, kind, client, ttl, default));
    }

    /** The server stored this at some moment since `before`. */
    ghost predicate StoredSince(before: seq<Action>, store: Store)
      reads this
    {
      exists t: seq<Action> :: before <= t <= trace && Exec(Init(start), t).store == store
    }

    /** seen is what the server stored when it handled the request. */
    method Get(id: nat) returns (answered: bool, seen: Store)
      requires Valid() && id in st.ops && (st.ops[id].phase.Getting? || st.ops[id].phase.Regetting?)
      modifies this
      ensures Valid() && old(trace) <= trace && id in st.ops
      ensures var o := old(st).ops[id];
              st.ops[id] == o.(phase := if answered then AfterGet(o, seen) else Done(Failed))
      ensures StoredSince(old(trace), seen)
    {
      Interfere(id);
      answered, seen := *, st.store;
      ghost var handled := trace;
      Do(LeaseProtocol.Get(id, answered));
      assert old(trace) <= handled <= trace && Exec(Init(start), handled).store == seen;
    }

    /** existed is meaningful when the server answered: the request met an existing lease. */
    method Create(id: nat) returns (answered: bool, existed: bool)
      requires Valid() && id in st.ops && st.ops[id].phase.Creating?
      modifies this
      ensures Valid() && old(trace) <= trace && id in st.ops
      ensures var o := old(st).ops[id];
              exists store: Store :: store.Present? == existed
                && st.ops[id] == o.(phase := if answered then AfterCreate(o, store) else Done(Failed))
    {
      Interfere(id);
      var reached: bool := *;
      answered := *;
      answered := answered && reached;
      existed := st.store.Present?;
      ghost var before := st.store;
      Do(LeaseProtocol.Create(id, reached, answered));
      assert before.Present? == existed;
    }

    /** A clock read of call id, at the expiry check or at the stamp. */
    method Now(id: nat) returns (now: int)
      requires Valid() && id in st.ops && (st.ops[id].phase.Judging? || st.ops[id].phase.Stamping?)
      modifies this
      ensures Valid() && old(trace) <= trace && id in st.ops
      ensures var o := old(st).ops[id];
              st.ops[id] == o.(phase :=
                if o.phase.Judging? then
                  if Takeable(o.phase.seen, o.default, now) then Stamping(o.phase.version, o.phase.seen)
                  else Done(AlreadyHeld)
                else
                  Writing(o.phase.version, o.phase.seen,
                          if o.kind.Lock? then AcquiredLease(o.phase.seen, o.client, o.ttl, now)
                          else RenewedLease(o.phase.seen, now), false))
    {
      Interfere(id);
      now := st.now;
      if st.ops[id].phase.Judging? {
        Do(Judge(id));
      } else {
        Do(Stamp(id));
      }
    }

    /** The expiry check passed without a clock read. */
    method PassUnheld(id: nat)
      requires Valid() && id in st.ops && st.ops[id].phase.Judging?
      requires st.ops[id].phase.seen.holder.None? || st.ops[id].phase.seen.renewTime.None?
      modifies this
      ensures Valid() && old(trace) <= trace && id in st.ops
      ensures var o := old(st).ops[id];
              st.ops[id] == o.(phase := Stamping(o.phase.version, o.phase.seen))
    {
      Do(Judge(id));
    }

    /** Sends exactly the lease the call computed; the answer may be lost before or after it lands. */
    method Update(id: nat, version: nat, lease: Lease) returns (reply: UpdateReply)
      requires Valid() && id in st.ops && st.ops[id].phase.Writing?
      requires st.ops[id].phase == Writing(version, st.ops[id].phase.seen, lease, false)
      modifies this
      ensures Valid() && old(trace) <= trace && id in st.ops
      ensures var o, o' := old(st).ops[id], st.ops[id];
              && o'.kind == o.kind && o'.client == o.client && o'.ttl == o.ttl && o'.default == o.default
              && o'.Returned() == Some(match reply
                                       case Accepted => Succeeded
                                       case Conflict => if o.kind.Lock? then AlreadyHeld else Failed
                                       case Lost => Failed)
    {
      Interfere(id);
      var abandon: bool := *;
      if abandon {
        Do(GiveUp(id));
        return Lost;
      }
      Do(Deliver(id));
      Interfere(id);
      var lost: bool := *;
      reply := if lost then Lost else if st.ops[id].phase.applied then Accepted else Conflict;
      Do(Answer(id, lost));
    }
  }

  datatype Opt = ClientIDOption(id: string) | TTLOption(nanos: int)

  /** The client ID after all options: the last ClientID option, empty or not, else the generated UUID. */
  function ChosenID(uuid: string, options: seq<Opt>): string {
    if options == [] then uuid
    else
      var last := options[|options| - 1];
      if last.ClientIDOption? then last.id else ChosenID(uuid, options[..|options| - 1])
  }

  function ChosenTTL(options: seq<Opt>): Option<int> {
    if options == [] then None
    else
      var last := options[|options| - 1];
      if last.TTLOption? then Some(last.nanos) else ChosenTTL(options[..|options| - 1])
  }

  /** The last ClientID option counts, TTL options do not matter for it, and without one it is the UUID. */
  lemma {:induction false} LastClientIDCounts(uuid: string, before: seq<Opt>, id: string, after: seq<Opt>)
    requires forall i :: 0 <= i < |after| ==> after[i].TTLOption?
    ensures ChosenID(uuid, before + [ClientIDOption(id)] + after) == id
    ensures ChosenID(uuid, after) == uuid
    decreases |after|
  {
    var options := before + [ClientIDOption(id)] + after;
    if after != [] {
      var init := after[..|after| - 1];
      LastClientIDCounts(uuid, before, id, init);
      assert options[..|options| - 1] == before + [ClientIDOption(id)] + init;
    }
  }

  /** The same for the TTL. */
  lemma {:induction false} LastTTLCounts(before: seq<Opt>, nanos: int, after: seq<Opt>)
    requires forall i :: 0 <= i < |after| ==> after[i].ClientIDOption?
    ensures ChosenTTL(before + [TTLOption(nanos)] + after) == Some(nanos)
    ensures ChosenTTL(after) == None
    decreases |after|
  {
    var options := before + [TTLOption(nanos)] + after;
    if after != [] {
      var init := after[..|after| - 1];
      LastTTLCounts(before, nanos, init);
      assert options[..|options| - 1] == before + [TTLOption(nanos)] + init;
    }
  }

  class Locker {
    const server: ApiServer
    const clientID: string
    const ttl: Option<int>
    const defaultLeaseDurationSec: int
    var acquired: bool

    constructor (server: ApiServer, clientID: string, ttl: Option<int>, defaultSec: int)
      ensures this.server == server && this.clientID == clientID && this.ttl == ttl
      ensures defaultLeaseDurationSec == defaultSec && !acquired
    {
      this.server, this.clientID, this.ttl := server, clientID, ttl;
      defaultLeaseDurationSec, acquired := defaultSec, false;
    }

    /** The call id was made with this locker's settings, is over, and has told the caller r. */
    ghost predicate Told(id: nat, kind: Kind, r: Outcome)
      reads this, server
    {
      && server.Valid() && id in server.st.ops
      && var o := server.st.ops[id];
      && o.kind == kind && o.client == clientID && o.ttl == ttl && o.default == defaultLeaseDurationSec
      && o.Returned() == Some(r)
    }

    method GetOrCreateLease(id: nat) returns (r: Result<(nat, Lease), ()>)
      requires server.Valid() && id in server.st.ops
      requires server.st.ops[id] == Op(Kind.Lock, clientID, ttl, defaultLeaseDurationSec, Getting, None)
      modifies server
      ensures server.Valid() && old(server.trace) <= server.trace && id in server.st.ops
      ensures server.st.ops[id] ==
              Op(Kind.Lock, clientID, ttl, defaultLeaseDurationSec,
                 if r.Ok? then Judging(r.value.0, r.value.1) else Done(Failed), None)
      ensures r.Ok? ==> server.StoredSince(old(server.trace), Present(r.value.0, r.value.1))
    {
      var answered, seen := server.Get(id);
      if !answered {
        return Err(());
      }
      if seen.Present? {
        return Ok((seen.version, seen.lease));
      }
      var created, existed := server.Create(id);
      if !created {
        return Err(());
      }
      answered, seen := server.Get(id);
      if !answered || seen.Missing? {
        return Err(());
      }
      return Ok((seen.version, seen.lease));
    }

    /** The fields Lock sets before it writes. */
    method Acquire(lease: Lease, now: int) returns (next: Lease)
      ensures next == AcquiredLease(lease, clientID, ttl, now)
    {
      var transitions := 0;
      if lease.transitions.Some? {
        transitions := lease.transitions.value;
      }
      transitions := Wrap32(transitions + 1);
      next := lease.(holder := Some(clientID), acquireTime := Some(now), renewTime := Some(now),
                     transitions := Some(transitions));
      if ttl.Some? && ttl.value > 0 {
        var sec := ttl.value / NANOS_PER_SECOND;
        if sec < 1 {
          sec := 1;
        }
        next := next.(duration := Some(sec));
      }
    }

    method Lock(id: nat) returns (r: Outcome)
      requires server.Valid() && id !in server.st.ops
      modifies this, server
      ensures Told(id, Kind.Lock, r) && old(server.trace) <= server.trace
      ensures acquired == (old(acquired) || r.Succeeded?)
    {
      server.Begin(id, Kind.Lock, clientID, ttl, defaultLeaseDurationSec);
      var got := GetOrCreateLease(id);
      if got.Err? {
        return Failed;
      }
      var (version, lease) := got.value;
      if lease.holder.Some? && lease.renewTime.Some? {
        var leaseDuration := MICROS_PER_SECOND * defaultLeaseDurationSec;
        if lease.duration.Some? {
          leaseDuration := MICROS_PER_SECOND * lease.duration.value;
        }
        var checked := server.Now(id);
        if lease.renewTime.value + leaseDuration > checked {
          return AlreadyHeld;
        }
      } else {
        server.PassUnheld(id);
      }
      var now := server.Now(id);
      lease := Acquire(lease, now);
      var reply := server.Update(id, version, lease);
      match reply {
        case Accepted =>
          acquired := true;
          r := Succeeded;
        case Conflict => r := AlreadyHeld;
        case Lost => r := Failed;
      }
    }

    /** The lease and its version when this client is its holder. */
    method VerifyLock(id: nat) returns (r: Result<(nat, Lease), ()>)
      requires server.Valid() && id in server.st.ops
      requires server.st.ops[id].phase.Getting? && server.st.ops[id].client == clientID
      requires server.st.ops[id].kind.Renew? || server.st.ops[id].kind.Unlock?
      modifies server
      ensures server.Valid() && old(server.trace) <= server.trace && id in server.st.ops
      ensures var o := old(server.st).ops[id];
              server.st.ops[id] == o.(phase :=
                if r.Err? then Done(Failed)
                else if o.kind.Renew? then Stamping(r.value.0, r.value.1)
                else Writing(r.value.0, r.value.1, ReleasedLease(r.value.1), false))
      ensures r.Ok? ==> HeldBy(r.value.1, clientID)
      ensures r.Ok? ==> server.StoredSince(old(server.trace), Present(r.value.0, r.value.1))
    {
      var answered, seen := server.Get(id);
      if !answered || seen.Missing? {
        return Err(());
      }
      var lease := seen.lease;
      if lease.holder.None? || lease.holder.value == "" {
        return Err(());
      }
      if lease.holder.value != clientID {
        return Err(());
      }
      return Ok((seen.version, lease));
    }

    method RenewLock(id: nat) returns (r: Outcome)
      requires server.Valid() && id !in server.st.ops
      modifies server
      ensures Told(id, Renew, r) && old(server.trace) <= server.trace
      ensures r.Succeeded? || r.Failed?
    {
      server.Begin(id, Renew, clientID, ttl, defaultLeaseDurationSec);
      var verified := VerifyLock(id);
      if verified.Err? {
        return Failed;
      }
      var (version, lease) := verified.value;
      var now := server.Now(id);
      lease := lease.(renewTime := Some(now));
      var reply := server.Update(id, version, lease);
      r := if reply.Accepted? then Succeeded else Failed;
    }

    method Unlock(id: nat) returns (r: Outcome)
      requires server.Valid() && id !in server.st.ops
      modifies this, server
      ensures Told(id, Kind.Unlock, r) && old(server.trace) <= server.trace
      ensures r.Succeeded? || r.Failed?
      ensures acquired == (old(acquired) && !r.Succeeded?)
    {
      server.Begin(id, Kind.Unlock, clientID, ttl, defaultLeaseDurationSec);
      var verified := VerifyLock(id);
      if verified.Err? {
        return Failed;
      }
      var (version, lease) := verified.value;
      lease := lease.(holder := None, acquireTime := None, renewTime := None, duration := None);
      var reply := server.Update(id, version, lease);
      if reply.Accepted? {
        acquired := false;
        return Succeeded;
      }
      return Failed;
    }
  }

  /** A locker that was told it acquired the lease has its tenure in a history without overlaps. */
  lemma SuccessfulLockOwnsATenure(l: Locker, id: nat, default: int)
    requires l.Told(id, Kind.Lock, Succeeded) && DefaultsAtLeast(l.server.trace, default)
    ensures Exclusive(l.server.st.history, default) && Ordered(l.server.st.history, default)
    ensures exists k :: 0 <= k < |l.server.st.history|
                        && l.server.st.history[k].op == id && l.server.st.history[k].client == l.clientID
  {
    MutualExclusion(l.server.start, l.server.trace, default);
    SuccessIsOnRecord(l.server.start, l.server.trace, default, id);
    var k := l.server.st.ops[id].landing.value.tenure;
    assert l.server.st.history[k].op == id && l.server.st.history[k].client == l.clientID;
  }

  /** Options are applied after the UUID is generated, so an empty ClientID option stays empty. */
  method NewLocker(server: ApiServer, id: nat, uuid: string, options: seq<Opt>, defaultSec: int)
    returns (r: Result<Locker, ()>)
    requires server.Valid() && id !in server.st.ops
    modifies server
    ensures server.Valid() && old(server.trace) <= server.trace
    ensures r.Ok? ==> fresh(r.value) && r.value.server == server && !r.value.acquired
                      && r.value.clientID == ChosenID(uuid, options) && r.value.ttl == ChosenTTL(options)
                      && r.value.defaultLeaseDurationSec == defaultSec
    ensures id in server.st.ops && server.st.ops[id].kind.New?
            && server.st.ops[id].Returned() == Some(if r.Ok? then Succeeded else Failed)
  {
    var clientID, ttl := uuid, None;
    for i := 0 to |options|
      invariant clientID == ChosenID(uuid, options[..i]) && ttl == ChosenTTL(options[..i])
    {
      assert options[..i + 1][..i] == options[..i];
      match options[i] {
        case ClientIDOption(chosen) => clientID := chosen;
        case TTLOption(nanos) => ttl := Some(nanos);
      }
    }
    assert options[..|options|] == options;
    server.Begin(id, New, clientID, ttl, defaultSec);
    var answered, seen := server.Get(id);
    if !answered {
      return Err(());
    }
    if seen.Missing? {
      var created, existed := server.Create(id);
      if !created || existed {
        return Err(());
      }
    }
    var locker := new Locker(server, clientID, ttl, defaultSec);
    return Ok(locker);
  }
}
