/** What an allocation comes to on its conditions alone, what each failed one leaves on the shared servers,
    and which stacks of a session are live. */
module HarnessLaws {
  import opened Outcome
  import opened RedisPool
  import opened Harness

  /** An allocation returns exactly if both leases do, the database is made, and nothing behind it raises;
      what it returns is what it was given. */
  lemma AllocationReturns(h: Held, wantsCheckpoint: bool, c: Conditions)
    ensures var r := Allocate(h, wantsCheckpoint, c).1;
      && (r.Success? <==> ReachesBroker(h, wantsCheckpoint, c) && (c.broker == NoBroker || c.broker == Leased) && !c.packRaises)
      && (r == Failure(NoCheckpoint) <==> wantsCheckpoint && h.checkpoint.None?)
      && (r.Success? ==>
            r.value == Resources(Lease(h.redis, c.redis).1.value,
              if wantsCheckpoint then Some(Lease(h.checkpoint.value, c.checkpoint).1.value) else None, c.name, c.broker == Leased))
  {
    hide Lease, Undone;
  }

  /** Some cleanup raised before the indices were freed. */
  predicate CutShort(h: Held, wantsCheckpoint: bool, c: Conditions) {
    || (ReachesDatabase(h, wantsCheckpoint, c) && c.dropRaises)
    || (ReachesBroker(h, wantsCheckpoint, c) && c.broker == Leased && c.releaseRaises)
  }

  /** A failed allocation leaves its database exactly if it was made and a cleanup up to its own raised, and
      every other database alone. */
  lemma DatabaseLeft(h: Held, wantsCheckpoint: bool, c: Conditions)
    requires Allocate(h, wantsCheckpoint, c).1.Failure? && c.name !in h.databases
    ensures var after := Allocate(h, wantsCheckpoint, c).0;
      && (c.name in after.databases <==>
            ReachesDatabase(h, wantsCheckpoint, c) && c.create != Refuses && CutShort(h, wantsCheckpoint, c))
      && forall name :: name != c.name ==> (name in after.databases <==> name in h.databases)
  {
    hide Lease;
  }

  /** It leaves an index exactly if it took one and a cleanup raised first, and the round of the pool goes on
      behind it either way. */
  lemma IndexLeft(h: Held, wantsCheckpoint: bool, c: Conditions)
    requires Allocate(h, wantsCheckpoint, c).1 == Failure(Raised)
    ensures var pool, after := Lease(h.redis, c.redis), Allocate(h, wantsCheckpoint, c).0;
      && after.redis.cursor == pool.0.cursor
      && (pool.1.Success? ==> (pool.1.value in after.redis.inUse <==> CutShort(h, wantsCheckpoint, c)))
      && forall idx :: pool.1 != Success(idx) ==> (idx in after.redis.inUse <==> idx in h.redis.inUse)
  {
    LeaseTakes(h.redis, c.redis);
    hide Lease;
  }

  lemma LeaseTakes(p: Pool, attempts: Attempts)
    ensures var (after, r) := Lease(p, attempts);
      after.inUse == if r.Success? then p.inUse + {r.value} else p.inUse
  {
  }

  /** A release leaves the lease exactly if its own call raised, the database exactly if its own did, both
      pools without its indices, and everything of other stacks. */
  lemma ReleaseLeaves(h: Held, r: Resources, releaseRaises: bool, dropRaises: bool)
    ensures var (after, errors) := Released(h, r, releaseRaises, dropRaises);
      && errors == (if r.leased && releaseRaises then 1 else 0) + (if dropRaises then 1 else 0)
                   + (if r.checkpointIdx.Some? && h.checkpoint.None? then 1 else 0)
      && (forall name :: name in after.leases <==> name in h.leases && (name == r.name && r.leased ==> releaseRaises))
      && (forall name :: name in after.databases <==> name in h.databases && (name == r.name ==> dropRaises))
      && (forall idx :: idx in after.redis.inUse <==> idx in h.redis.inUse && idx != r.idx)
      && after.checkpoint.Some? == h.checkpoint.Some?
      && (h.checkpoint.Some? ==>
            forall idx :: idx in after.checkpoint.value.inUse <==> idx in h.checkpoint.value.inUse && r.checkpointIdx != Some(idx))
  {
  }

  // ---- Live stacks -----------------------------------------------------------------------

  /** A stack is live from the boot that returned it to its teardown. */
  lemma LiveAre(s: Session, step: SessionStep, r: Resources)
    requires Coherent(s)
    ensures r in Stepped(s, step).live <==>
      match step
      case Boot(wantsCheckpoint, c) => r in s.live || Allocate(s.held, wantsCheckpoint, c).1 == Success(r)
      case TearDown(which, _, _) => r in s.live && !(which < |s.live| && s.live[which] == r)
  {
    hide Allocate, Holds, Released, Distinct;
    if step.TearDown? && step.which < |s.live| {
      OneGone(s.live, step.which, r);
    }
  }

  lemma OneGone(live: seq<Resources>, which: nat, r: Resources)
    requires Distinct(live) && which < |live|
    ensures r in live[..which] + live[which + 1..] <==> r in live && live[which] != r
  {
    var rest := live[..which] + live[which + 1..];
    if r in live && live[which] != r {
      var i :| 0 <= i < |live| && live[i] == r;
      assert r == rest[if i < which then i else i - 1];
    }
    if r in rest {
      var i :| 0 <= i < |rest| && rest[i] == r;
      assert r == live[if i < which then i else i + 1];
    }
  }

  /** A teardown leaves its stack's database and lease exactly where their own calls raised. */
  lemma TornDown(s: Session, which: nat, releaseRaises: bool, dropRaises: bool)
    requires which < |s.live|
    ensures var gone, held := s.live[which], Stepped(s, TearDown(which, releaseRaises, dropRaises)).held;
      && (gone.name in held.databases <==> gone.name in s.held.databases && dropRaises)
      && (gone.leased ==> (gone.name in held.leases <==> gone.name in s.held.leases && releaseRaises))
      && gone.idx !in held.redis.inUse
  {
    ReleaseLeaves(s.held, s.live[which], releaseRaises, dropRaises);
    hide Released;
  }

  /** A session goes on from where it stands. */
  lemma {:induction false} SessionGoesOn(s: Session, steps: seq<SessionStep>, step: SessionStep)
    ensures RunSession(s, []) == s
    ensures RunSession(s, steps + [step]) == Stepped(RunSession(s, steps), step)
  {
    hide Stepped;
    assert (steps + [step])[..|steps|] == steps;
  }

  /** A stack booted and torn down again, both without an error, leaves the session as it was. */
  lemma BootedAndTornDown(s: Session, wantsCheckpoint: bool, c: Conditions)
    requires Allocate(s.held, wantsCheckpoint, c).1.Success? && (c.broker == Leased ==> c.name !in s.held.leases)
    ensures var booted := Stepped(s, Boot(wantsCheckpoint, c));
      var after := Stepped(booted, TearDown(|s.live|, false, false));
      |booted.live| == |s.live| + 1 && after.live == s.live && SameHeld(s.held, after.held)
  {
    AllocateThenRelease(s.held, wantsCheckpoint, c);
    hide Allocate, Released;
    var booted := Stepped(s, Boot(wantsCheckpoint, c));
    assert booted.live[..|s.live|] == s.live;
  }
}
