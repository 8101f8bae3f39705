/** All-or-nothing allocation of a stack's shared resources, as e2e/src/tai42_e2e/harness.py, pg.py
    and rabbitx.py do it; which steps raise is given. */
module Harness {
  import opened Outcome
  import opened RedisPool

  /** `CREATE DATABASE`: it may raise after the database is there; over an existing one it always
      raises. */
  datatype Create = Made | Refuses | MadeThenRaises

  /** The broker's vhost, if the stack has one: leased; refused outright; made and deleted again where
      its permissions are refused; or made and left there by what raises, a request that times out
      or that deletion itself. */
  datatype Broker = NoBroker | Leased | VhostRefused | VhostUndone | VhostLeft

  /** What each step of an allocation, and each cleanup after it, does. */
  datatype Conditions = Conditions(
    redis: Attempts, checkpoint: Attempts, name: string, create: Create, storageRaises: bool, broker: Broker,
    packRaises: bool, releaseRaises: bool, dropRaises: bool)

  /** What is held on the shared servers: the two pools, the databases, the broker leases. */
  datatype Held = Held(redis: Pool, checkpoint: Option<Pool>, databases: set<string>, leases: set<string>)

  datatype Resources = Resources(idx: int, checkpointIdx: Option<int>, name: string, leased: bool)

  /** How far an allocation got: what its exception handler has to undo. */
  datatype Partial = Partial(idx: int, checkpointIdx: Option<int>, name: Option<string>, leased: bool)

  datatype Error = NoCheckpoint | Raised

  function FreeIndices(h: Held, idx: int, checkpointIdx: Option<int>): Held {
    h.(redis := Release(h.redis, idx),
       checkpoint := if checkpointIdx.Some? && h.checkpoint.Some?
                     then Some(Release(h.checkpoint.value, checkpointIdx.value)) else h.checkpoint)
  }

  /** The exception handler: a cleanup that raises skips the ones after it. */
  function Undone(h: Held, p: Partial, c: Conditions): Held {
    if p.leased && c.releaseRaises then h else
    var unleased := if p.leased then h.(leases := h.leases - {c.name}) else h;
    if p.name.Some? && c.dropRaises then unleased else
    var dropped := if p.name.Some? then unleased.(databases := h.databases - {p.name.value}) else unleased;
    FreeIndices(dropped, p.idx, p.checkpointIdx)
  }

  /** The steps inside the guard, from the checkpoint index on. */
  function Acquired(h: Held, idx: int, wantsCheckpoint: bool, c: Conditions): (Held, Partial, bool)
    requires wantsCheckpoint ==> h.checkpoint.Some?
  {
    var (pool, checkpointed) :=
      if wantsCheckpoint then Lease(h.checkpoint.value, c.checkpoint) else (Pool(0, 0, 0, {}), Success(0));
    var h1 := if wantsCheckpoint then h.(checkpoint := Some(pool)) else h;
    if checkpointed.Failure? then (h1, Partial(idx, None, None, false), false) else
    var checkpointIdx := if wantsCheckpoint then Some(checkpointed.value) else None;
    var made := c.create != Refuses && c.name !in h.databases;
    var h2 := if made then h1.(databases := h.databases + {c.name}) else h1;
    var named := Partial(idx, checkpointIdx, Some(c.name), false);
    if !made || c.create == MadeThenRaises || c.storageRaises then (h2, named, false) else
    var h3 := h2.(leases := LeasesAfter(h.leases, c));
    var leased := named.(leased := c.broker == Leased);
    (h3, leased, BrokerReturns(c.broker) && !c.packRaises)
  }

  predicate BrokerReturns(broker: Broker) { broker == NoBroker || broker == Leased }

  /** The vhosts once `allocate_broker` has returned or raised. */
  function LeasesAfter(leases: set<string>, c: Conditions): set<string> {
    match c.broker
    case NoBroker => leases
    case Leased => leases + {c.name}
    case VhostRefused => leases
    case VhostUndone => leases - {c.name}
    case VhostLeft => leases + {c.name}
  }

  /** `allocate_resources`. */
  function Allocate(h: Held, wantsCheckpoint: bool, c: Conditions): (Held, Result<Resources, Error>) {
    if wantsCheckpoint && h.checkpoint.None? then (h, Failure(NoCheckpoint)) else
    var (pool, leased) := Lease(h.redis, c.redis);
    if leased.Failure? then (h.(redis := pool), Failure(Raised)) else
    var (after, p, done) := Acquired(h.(redis := pool), leased.value, wantsCheckpoint, c);
    if done then (after, Success(Resources(p.idx, p.checkpointIdx, c.name, p.leased)))
    else (Undone(after, p, c), Failure(Raised))
  }

  /** `release_resources`: every release tried, the errors counted. */
  function Released(h: Held, r: Resources, releaseRaises: bool, dropRaises: bool): (Held, nat) {
    var unleased := if r.leased && !releaseRaises then h.(leases := h.leases - {r.name}) else h;
    var dropped := if !dropRaises then unleased.(databases := h.databases - {r.name}) else unleased;
    var errors := Count(r.leased && releaseRaises) + Count(dropRaises) + Count(r.checkpointIdx.Some? && h.checkpoint.None?);
    (FreeIndices(dropped, r.idx, r.checkpointIdx), errors)
  }

  function Count(b: bool): nat { if b then 1 else 0 }

  // ---- The steps, as the code takes them -------------------------------------------------

  class Infra {
    const redis: RedisAdmin
    const checkpoint: RedisAdmin?
    var databases: set<string>
    var leases: set<string>

    ghost predicate Valid()
      reads this
    {
      checkpoint != redis
    }

    ghost function Value(): Held
      reads this, redis, checkpoint
    {
      Held(redis.Value(), if checkpoint == null then None else Some(checkpoint.Value()), databases, leases)
    }

    constructor (redis: RedisAdmin, checkpoint: RedisAdmin?)
      requires checkpoint != redis
      ensures Valid() && this.redis == redis && this.checkpoint == checkpoint && databases == {} && leases == {}
    {
      this.redis, this.checkpoint, databases, leases := redis, checkpoint, {}, {};
    }

    /** What the exception handler does. */
    method Undo(p: Partial, c: Conditions)
      requires Valid()
      modifies this, redis, checkpoint
      ensures Valid() && Value() == old(Undone(Value(), p, c))
    {
      if p.leased {
        if c.releaseRaises {
          return;
        }
        leases := leases - {c.name};
      }
      if p.name.Some? {
        if c.dropRaises {
          return;
        }
        databases := databases - {p.name.value};
      }
      if p.checkpointIdx.Some? && checkpoint != null {
        checkpoint.ReleaseDb(p.checkpointIdx.value);
      }
      redis.ReleaseDb(p.idx);
    }

    method AllocateResources(wantsCheckpoint: bool, c: Conditions) returns (r: Result<Resources, Error>)
      requires Valid()
      modifies this, redis, checkpoint
      ensures Valid() && (Value(), r) == old(Allocate(Value(), wantsCheckpoint, c))
    {
      hide Lease, Undone, Acquired;
      if wantsCheckpoint && checkpoint == null {
        return Failure(NoCheckpoint);
      }
      var idx := redis.AllocateDb(c.redis);
      if idx.Failure? {
        return Failure(Raised);
      }
      var acquired, done := AcquireRest(idx.value, wantsCheckpoint, c);
      if !done {
        Undo(acquired, c);
        return Failure(Raised);
      }
      r := Success(Resources(acquired.idx, acquired.checkpointIdx, c.name, acquired.leased));
    }

    /** The steps inside the guard, up to the first that raises. */
    method AcquireRest(idx: int, wantsCheckpoint: bool, c: Conditions) returns (acquired: Partial, done: bool)
      requires Valid() && (wantsCheckpoint ==> checkpoint != null)
      modifies this, checkpoint
      ensures Valid() && (Value(), acquired, done) == old(Acquired(Value(), idx, wantsCheckpoint, c))
    {
      hide Lease;
      acquired := Partial(idx, None, None, false);
      if wantsCheckpoint {
        var leased := checkpoint.AllocateDb(c.checkpoint);
        if leased.Failure? {
          return acquired, false;
        }
        acquired := acquired.(checkpointIdx := Some(leased.value));
      }
      acquired := acquired.(name := Some(c.name));
      if c.create == Refuses || c.name in databases {
        return acquired, false;
      }
      databases := databases + {c.name};
      if c.create == MadeThenRaises || c.storageRaises {
        return acquired, false;
      }
      AllocateBroker(c);
      if !BrokerReturns(c.broker) {
        return acquired, false;
      }
      acquired := acquired.(leased := c.broker == Leased);
      done := !c.packRaises;
    }

    /** `allocate_broker`, over `create_vhost` where the stack has a broker. */
    method AllocateBroker(c: Conditions)
      modifies `leases
      ensures leases == old(LeasesAfter(leases, c))
    {
      if c.broker == NoBroker || c.broker == VhostRefused {
        return;
      }
      leases := leases + {c.name};
      if c.broker == VhostUndone {
        leases := leases - {c.name};
      }
    }

    method ReleaseResources(r: Resources, releaseRaises: bool, dropRaises: bool) returns (errors: nat)
      requires Valid()
      modifies this, redis, checkpoint
      ensures Valid() && (Value(), errors) == old(Released(Value(), r, releaseRaises, dropRaises))
    {
      errors := 0;
      if r.leased {
        if releaseRaises {
          errors := errors + 1;
        } else {
          leases := leases - {r.name};
        }
      }
      if dropRaises {
        errors := errors + 1;
      } else {
        databases := databases - {r.name};
      }
      if r.checkpointIdx.Some? {
        if checkpoint == null {
          errors := errors + 1;
        } else {
          checkpoint.ReleaseDb(r.checkpointIdx.value);
        }
      }
      redis.ReleaseDb(r.idx);
    }
  }

  // ---- All or nothing --------------------------------------------------------------------

  /** The same indices, databases and leases are held; the pools' cursors may have moved. */
  predicate SameHeld(a: Held, b: Held) {
    && a.redis.inUse == b.redis.inUse && a.databases == b.databases && a.leases == b.leases
    && a.checkpoint.Some? == b.checkpoint.Some?
    && (a.checkpoint.Some? ==> a.checkpoint.value.inUse == b.checkpoint.value.inUse)
  }

  /** Whether the allocation gets as far as its database and its broker. */
  predicate ReachesDatabase(h: Held, wantsCheckpoint: bool, c: Conditions) {
    && (wantsCheckpoint ==> h.checkpoint.Some? && Lease(h.checkpoint.value, c.checkpoint).1.Success?)
    && Lease(h.redis, c.redis).1.Success?
  }

  predicate ReachesBroker(h: Held, wantsCheckpoint: bool, c: Conditions) {
    ReachesDatabase(h, wantsCheckpoint, c) && c.create == Made && c.name !in h.databases && !c.storageRaises
  }

  /** The stack id is new, no cleanup the failure comes to raises, and no vhost is left by a broker
      that raises after making it. */
  predicate CleanFailure(h: Held, wantsCheckpoint: bool, c: Conditions) {
    && (ReachesDatabase(h, wantsCheckpoint, c) ==> c.name !in h.databases && !c.dropRaises)
    && (ReachesBroker(h, wantsCheckpoint, c) ==>
          match c.broker
          case NoBroker => true
          case Leased => c.name !in h.leases && !c.releaseRaises
          case VhostRefused => true
          case VhostUndone => c.name !in h.leases
          case VhostLeft => c.name in h.leases)
  }

  /** An allocation that raises, at whichever step, leaves exactly what was held before it, if and
      only if its stack id is new, the cleanups it comes to do not raise, and its broker did not
      raise with the new vhost in place. */
  lemma FailureIsAtomic(h: Held, wantsCheckpoint: bool, c: Conditions)
    requires Allocate(h, wantsCheckpoint, c).1.Failure?
    ensures SameHeld(h, Allocate(h, wantsCheckpoint, c).0) <==> CleanFailure(h, wantsCheckpoint, c)
  {
  }

  /** A vhost left by a broker that raises after making it stays, with a new stack id and every
      cleanup returning: the handler has no lease to release. */
  lemma VhostStays(h: Held, wantsCheckpoint: bool, c: Conditions)
    requires ReachesBroker(h, wantsCheckpoint, c) && c.broker == VhostLeft && c.name !in h.leases
    ensures var (after, r) := Allocate(h, wantsCheckpoint, c);
      r.Failure? && after.leases == h.leases + {c.name} && !SameHeld(h, after)
  {
    hide Lease;
  }

  /** The plainest such allocation. */
  lemma VhostStaysOnce()
    ensures var h := Held(Pool(1, 15, 0, {}), None, {}, {});
      var c := Conditions(_ => Ready, _ => Ready, "tai42_e2e_0a1b2c", Made, false, VhostLeft, false, false, false);
      var (after, r) := Allocate(h, false, c);
      r.Failure? && after.leases == {"tai42_e2e_0a1b2c"} && after.redis.inUse == {} && after.databases == {}
  {
    var h := Held(Pool(1, 15, 0, {}), None, {}, {});
    LeaseIsSound(h.redis, _ => Ready);
    assert h.redis.InRange(1);
    hide Lease;
  }

  /** Nothing that was held before a failed allocation with a new stack id is lost by it, whatever its
      cleanups do. */
  predicate Keeps(h: Held, after: Held) {
    && h.redis.inUse <= after.redis.inUse && h.databases <= after.databases && h.leases <= after.leases
    && h.checkpoint.Some? == after.checkpoint.Some?
    && (h.checkpoint.Some? ==> h.checkpoint.value.inUse <= after.checkpoint.value.inUse)
  }

  lemma FailureLosesNothing(h: Held, wantsCheckpoint: bool, c: Conditions)
    requires Allocate(h, wantsCheckpoint, c).1.Failure? && c.name !in h.databases && c.name !in h.leases
    ensures Keeps(h, Allocate(h, wantsCheckpoint, c).0)
  {
    LeaseIsSound(h.redis, c.redis);
    if wantsCheckpoint && h.checkpoint.Some? {
      LeaseIsSound(h.checkpoint.value, c.checkpoint);
    }
    hide Lease;
  }

  /** What a successful allocation takes: coordinates nobody held, and nothing else. */
  predicate Takes(h: Held, after: Held, r: Resources) {
    && r.idx !in h.redis.inUse && after.redis.inUse == h.redis.inUse + {r.idx}
    && r.name !in h.databases && after.databases == h.databases + {r.name}
    && after.leases == (if r.leased then h.leases + {r.name} else h.leases)
    && after.checkpoint.Some? == h.checkpoint.Some?
    && (r.checkpointIdx.Some? ==> h.checkpoint.Some? && r.checkpointIdx.value !in h.checkpoint.value.inUse)
    && (h.checkpoint.Some? ==>
          after.checkpoint.value.inUse == h.checkpoint.value.inUse
            + if r.checkpointIdx.Some? then {r.checkpointIdx.value} else {})
  }

  lemma SuccessTakesFree(h: Held, wantsCheckpoint: bool, c: Conditions)
    requires Allocate(h, wantsCheckpoint, c).1.Success?
    ensures Takes(h, Allocate(h, wantsCheckpoint, c).0, Allocate(h, wantsCheckpoint, c).1.value)
  {
  }

  /** Allocating and releasing is the identity on what is held, and reports no error. */
  lemma AllocateThenRelease(h: Held, wantsCheckpoint: bool, c: Conditions)
    requires Allocate(h, wantsCheckpoint, c).1.Success? && (c.broker == Leased ==> c.name !in h.leases)
    ensures var (after, r) := Allocate(h, wantsCheckpoint, c);
      var (released, errors) := Released(after, r.value, false, false);
      SameHeld(h, released) && errors == 0
  {
  }

  /** A release that meets errors still frees both indices and everything whose own release did
      not raise, and counts each error. */
  lemma ReleaseGoesOn(h: Held, r: Resources, releaseRaises: bool, dropRaises: bool)
    ensures var (after, errors) := Released(h, r, releaseRaises, dropRaises);
      && r.idx !in after.redis.inUse
      && (r.checkpointIdx.Some? && h.checkpoint.Some? ==> r.checkpointIdx.value !in after.checkpoint.value.inUse)
      && (r.leased && !releaseRaises ==> r.name !in after.leases) && (!dropRaises ==> r.name !in after.databases)
      && (errors == 0 <==> !(r.leased && releaseRaises) && !dropRaises && (r.checkpointIdx.Some? ==> h.checkpoint.Some?))
  {
  }

  // ---- Live stacks -----------------------------------------------------------------------

  /** What stays on the servers from before: held by no stack of this run. */
  datatype Session = Session(held: Held, live: seq<Resources>)

  ghost predicate Distinct(live: seq<Resources>) {
    forall i, j :: 0 <= i < j < |live| ==>
      && live[i].idx != live[j].idx && live[i].name != live[j].name
      && (live[i].checkpointIdx.Some? ==> live[i].checkpointIdx != live[j].checkpointIdx)
  }

  /** Everything a live stack has is held. */
  predicate Holds(h: Held, r: Resources) {
    && r.idx in h.redis.inUse && r.name in h.databases && (r.leased ==> r.name in h.leases)
    && (r.checkpointIdx.Some? ==> h.checkpoint.Some? && r.checkpointIdx.value in h.checkpoint.value.inUse)
  }

  ghost predicate Coherent(s: Session) {
    Distinct(s.live) && forall i :: 0 <= i < |s.live| ==> Holds(s.held, s.live[i])
  }

  datatype SessionStep = Boot(wantsCheckpoint: bool, conditions: Conditions)
    | TearDown(which: nat, releaseRaises: bool, dropRaises: bool)

  function Stepped(s: Session, step: SessionStep): Session {
    match step
    case Boot(wantsCheckpoint, c) =>
      var (held, r) := Allocate(s.held, wantsCheckpoint, c);
      Session(held, if r.Success? then s.live + [r.value] else s.live)
    case TearDown(which, releaseRaises, dropRaises) =>
      if which >= |s.live| then s
      else Session(Released(s.held, s.live[which], releaseRaises, dropRaises).0, s.live[..which] + s.live[which + 1..])
  }

  /** A boot that fails does so under a new stack id. */
  predicate Fair(s: Session, step: SessionStep) {
    step.Boot? ==>
      Allocate(s.held, step.wantsCheckpoint, step.conditions).1.Failure? ==>
        step.conditions.name !in s.held.databases && step.conditions.name !in s.held.leases
  }

  lemma BootKeepsApart(s: Session, wantsCheckpoint: bool, c: Conditions)
    requires Coherent(s) && Fair(s, Boot(wantsCheckpoint, c))
    ensures Coherent(Stepped(s, Boot(wantsCheckpoint, c)))
  {
    var (held, r) := Allocate(s.held, wantsCheckpoint, c);
    if r.Success? {
      SuccessTakesFree(s.held, wantsCheckpoint, c);
    } else {
      FailureLosesNothing(s.held, wantsCheckpoint, c);
    }
    hide Allocate;
    var live := Stepped(s, Boot(wantsCheckpoint, c)).live;
    forall i | 0 <= i < |s.live|
      ensures Holds(held, s.live[i])
    {
      assert Holds(s.held, s.live[i]);
    }
    forall i, j | 0 <= i < j < |live|
      ensures live[i].idx != live[j].idx && live[i].name != live[j].name
      ensures live[i].checkpointIdx.Some? ==> live[i].checkpointIdx != live[j].checkpointIdx
    {
      assert Holds(s.held, live[i]);
    }
  }

  lemma TearDownKeepsApart(s: Session, which: nat, releaseRaises: bool, dropRaises: bool)
    requires Coherent(s)
    ensures Coherent(Stepped(s, TearDown(which, releaseRaises, dropRaises)))
  {
    if which < |s.live| {
      var gone, live := s.live[which], s.live[..which] + s.live[which + 1..];
      forall i | 0 <= i < |live|
        ensures Holds(Released(s.held, gone, releaseRaises, dropRaises).0, live[i])
      {
        var k := if i < which then i else i + 1;
        assert live[i] == s.live[k] && Holds(s.held, s.live[k]);
      }
    }
  }

  function RunSession(s: Session, steps: seq<SessionStep>): Session
    decreases |steps|
  {
    if steps == [] then s else Stepped(RunSession(s, steps[..|steps| - 1]), steps[|steps| - 1])
  }

  ghost predicate FairRun(s: Session, steps: seq<SessionStep>) {
    forall n :: 0 <= n < |steps| ==> Fair(RunSession(s, steps[..n]), steps[n])
  }

  /** Over any run of boots and teardowns, whatever their cleanups do, no two live stacks share an
      index, a database or a lease, and all they have is held; a boot that fails does so under a
      new stack id. */
  lemma {:induction false} LiveStacksAreApart(s: Session, steps: seq<SessionStep>)
    requires Coherent(s) && FairRun(s, steps)
    ensures Coherent(RunSession(s, steps))
    decreases |steps|
  {
    hide Coherent, Fair, Stepped;
    if steps != [] {
      var before := steps[..|steps| - 1];
      assert FairRun(s, before) by {
        assert forall n :: 0 <= n < |before| ==> before[..n] == steps[..n] && before[n] == steps[n];
      }
      LiveStacksAreApart(s, before);
      var at := RunSession(s, before);
      assert Fair(at, steps[|steps| - 1]);
      match steps[|steps| - 1]
      case Boot(wantsCheckpoint, c) => BootKeepsApart(at, wantsCheckpoint, c);
      case TearDown(which, releaseRaises, dropRaises) => TearDownKeepsApart(at, which, releaseRaises, dropRaises);
    }
  }
}
