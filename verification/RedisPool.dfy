/** The round-robin logical-DB pool of e2e/src/tai42_e2e/redisx.py. */
module RedisPool {
  import opened Outcome

  /** What trying an index comes to: it can be flushed, a live orphan still uses it, or the
      flush fails. */
  datatype Attempt = Ready | Orphaned | FlushFails

  type Attempts = int -> Attempt

  datatype Error = Exhausted | Refused(idx: int, why: Attempt)

  /** `size` indices from `start` on; the next one to look at; the leased ones. */
  datatype Pool = Pool(start: int, size: nat, cursor: nat, inUse: set<int>) {
    /** The index at cursor value `k`. */
    function Slot(k: nat): int
      requires size > 0
    {
      start + k % size
    }

    predicate InRange(idx: int) { start <= idx < start + size }
  }

  /** How far from the cursor the first free slot is, looking at `tries` of them. */
  function Skipped(p: Pool, from: nat, tries: nat): (d: nat)
    requires tries > 0 ==> p.size > 0
    ensures d <= tries
    ensures forall k :: from <= k < from + d ==> p.Slot(k) in p.inUse
    ensures d < tries ==> p.Slot(from + d) !in p.inUse
    decreases tries
  {
    if tries == 0 || p.Slot(from) !in p.inUse then 0 else 1 + Skipped(p, from + 1, tries - 1)
  }

  /** `allocate_db`. */
  function Lease(p: Pool, attempts: Attempts): (Pool, Result<int, Error>) {
    var d := Skipped(p, p.cursor, p.size);
    if d == p.size then (p.(cursor := p.cursor + d), Failure(Exhausted)) else
    var idx := p.Slot(p.cursor + d);
    var on := p.(cursor := p.cursor + d + 1);
    if attempts(idx) == Ready then (on.(inUse := p.inUse + {idx}), Success(idx))
    else (on, Failure(Refused(idx, attempts(idx))))
  }

  /** `release_db`. */
  function Release(p: Pool, idx: int): Pool { p.(inUse := p.inUse - {idx}) }

  class RedisAdmin {
    const start: int
    const size: nat
    var cursor: nat
    var inUse: set<int>

    function Value(): Pool
      reads this
    {
      Pool(start, size, cursor, inUse)
    }

    constructor (start: int, size: nat)
      ensures Value() == Pool(start, size, 0, {})
    {
      this.start, this.size, cursor, inUse := start, size, 0, {};
    }

    method AllocateDb(attempts: Attempts) returns (r: Result<int, Error>)
      modifies this
      ensures (Value(), r) == old(Lease(Value(), attempts))
    {
      ghost var p := Value();
      for tried := 0 to size
        invariant inUse == p.inUse && cursor == p.cursor + tried
        invariant tried + Skipped(p, p.cursor + tried, size - tried) == Skipped(p, p.cursor, size)
      {
        var idx := start + cursor % size;
        assert idx == p.Slot(p.cursor + tried);
        cursor := cursor + 1;
        if idx !in inUse {
          if attempts(idx) != Ready {
            return Failure(Refused(idx, attempts(idx)));
          }
          inUse := inUse + {idx};
          return Success(idx);
        }
      }
      r := Failure(Exhausted);
    }

    method ReleaseDb(idx: int)
      modifies this
      ensures Value() == old(Release(Value(), idx))
    {
      inUse := inUse - {idx};
    }
  }

  /** The search reads neither cursor. */
  lemma {:induction false} SameSlots(p: Pool, q: Pool, from: nat, tries: nat)
    requires q == p.(cursor := q.cursor) && (tries > 0 ==> p.size > 0)
    ensures Skipped(p, from, tries) == Skipped(q, from, tries)
    decreases tries
  {
    if tries > 0 {
      SameSlots(p, q, from + 1, tries - 1);
    }
  }

  // ---- One allocation --------------------------------------------------------------------

  lemma {:induction false} MulAtLeast(n: nat, e: nat)
    requires e >= 1
    ensures n * e >= n
    decreases e
  {
    if e > 1 {
      MulAtLeast(n, e - 1);
      assert n * e == n * (e - 1) + n;
    }
  }

  lemma RemainderIs(a: int, n: nat, q: int, r: int)
    requires n > 0 && a == n * q + r && 0 <= r < n
    ensures a % n == r
  {
    var e := a / n - q;
    assert n * e == n * (a / n) - n * q == r - a % n;
    if e >= 1 {
      MulAtLeast(n, e);
    } else if e <= -1 {
      MulAtLeast(n, -e);
    }
  }

  /** Any `size` cursor values in a row look at every index. */
  lemma WindowCovers(p: Pool, from: nat, idx: int) returns (k: nat)
    requires p.InRange(idx)
    ensures from <= k < from + p.size && p.Slot(k) == idx
  {
    var r := idx - p.start;
    var q, d := (r - from) / p.size, (r - from) % p.size;
    k := from + d;
    assert r - from == p.size * q + d;
    assert k == p.size * -q + r by { assert p.size * -q == -(p.size * q); }
    RemainderIs(k, p.size, -q, r);
  }

  /** An index never leased before its time, never out of range; exhaustion exactly when every
      index is held; a refusal retires nothing. */
  lemma LeaseIsSound(p: Pool, attempts: Attempts)
    ensures var (after, r) := Lease(p, attempts);
      && after.start == p.start && after.size == p.size
      && (r == Failure(Exhausted) <==> forall idx :: p.InRange(idx) ==> idx in p.inUse)
      && match r
         case Success(idx) => p.InRange(idx) && idx !in p.inUse && after.inUse == p.inUse + {idx} && attempts(idx) == Ready
         case Failure(Exhausted) => after.inUse == p.inUse
         case Failure(Refused(idx, why)) =>
           after.inUse == p.inUse && p.InRange(idx) && idx !in p.inUse && why == attempts(idx) != Ready
  {
    var d := Skipped(p, p.cursor, p.size);
    if d == p.size {
      forall idx | p.InRange(idx)
        ensures idx in p.inUse
      {
        var k := WindowCovers(p, p.cursor, idx);
      }
    } else {
      assert p.InRange(p.Slot(p.cursor + d));
    }
  }

  /** An allocation looks at the slots in order and passes the ones it looked at, whatever comes of the
      last: behind an index it leased or was refused the next one goes on. */
  lemma LeaseLooksInOrder(p: Pool, attempts: Attempts)
    ensures var (after, r) := Lease(p, attempts); var looked := after.cursor - p.cursor;
      && 0 <= looked <= p.size
      && match r
         case Failure(Exhausted) => looked == p.size
         case Success(idx) => looked > 0 && p.Slot(after.cursor - 1) == idx
                              && forall k :: p.cursor <= k < after.cursor - 1 ==> p.Slot(k) in p.inUse
         case Failure(Refused(idx, _)) => looked > 0 && p.Slot(after.cursor - 1) == idx
                                          && forall k :: p.cursor <= k < after.cursor - 1 ==> p.Slot(k) in p.inUse
  {
    var d := Skipped(p, p.cursor, p.size);
    if d < p.size {
      assert p.Slot(p.cursor + d) !in p.inUse;
    }
  }

  // ---- Fairness over a history -----------------------------------------------------------

  datatype Op = Ask(attempts: Attempts) | GiveBack(idx: int)

  function Did(p: Pool, op: Op): Pool {
    match op
    case Ask(attempts) => Lease(p, attempts).0
    case GiveBack(idx) => Release(p, idx)
  }

  /** The pool after the first `n` operations. */
  function StateAt(p: Pool, ops: seq<Op>, n: nat): Pool
    requires n <= |ops|
  {
    if n == 0 then p else Did(StateAt(p, ops, n - 1), ops[n - 1])
  }

  /** Operation `n` leases `idx`. */
  predicate Leases(p: Pool, ops: seq<Op>, n: nat, idx: int) {
    n < |ops| && ops[n].Ask? && Lease(StateAt(p, ops, n), ops[n].attempts).1 == Success(idx)
  }

  /** Operation `n` is no allocation that an orphan or a flush refused. */
  predicate Unrefused(p: Pool, ops: seq<Op>, n: nat) {
    n < |ops| && (ops[n].Ask? ==>
                    var r := Lease(StateAt(p, ops, n), ops[n].attempts).1; r.Success? || r == Failure(Exhausted))
  }

  ghost predicate HeldBetween(p: Pool, ops: seq<Op>, a: nat, b: nat, idx: int)
    requires a <= b <= |ops|
  {
    exists t :: a <= t <= b && idx in StateAt(p, ops, t).inUse
  }

  lemma {:induction false} SameRange(p: Pool, ops: seq<Op>, n: nat)
    requires n <= |ops|
    ensures StateAt(p, ops, n).start == p.start && StateAt(p, ops, n).size == p.size
    ensures n > 0 ==> StateAt(p, ops, n - 1).cursor <= StateAt(p, ops, n).cursor
  {
    if n > 0 {
      SameRange(p, ops, n - 1);
    }
  }

  /** Every slot an unrefused operation moves the cursor past is held before it or after it. */
  lemma PassedSlotIsHeld(p: Pool, op: Op, k: nat)
    requires p.size > 0 && p.cursor <= k < Did(p, op).cursor
    requires op.Ask? ==> !Lease(p, op.attempts).1.Failure? || Lease(p, op.attempts).1 == Failure(Exhausted)
    ensures p.Slot(k) in p.inUse || p.Slot(k) in Did(p, op).inUse
  {
  }

  lemma {:induction false} PassedSlotsWereHeld(p: Pool, ops: seq<Op>, a: nat, b: nat, k: nat)
    requires p.size > 0 && a <= b <= |ops| && StateAt(p, ops, a).cursor <= k < StateAt(p, ops, b).cursor
    requires forall n :: a <= n < b ==> Unrefused(p, ops, n)
    ensures HeldBetween(p, ops, a, b, p.Slot(k))
    decreases b
  {
    hide Lease, Release;
    SameRange(p, ops, b);
    if a < b {
      SameRange(p, ops, b - 1);
      var before := StateAt(p, ops, b - 1);
      if k < before.cursor {
        PassedSlotsWereHeld(p, ops, a, b - 1, k);
        var t :| a <= t <= b - 1 && p.Slot(k) in StateAt(p, ops, t).inUse;
      } else {
        assert Unrefused(p, ops, b - 1);
        PassedSlotIsHeld(before, ops[b - 1], k);
        assert before.Slot(k) == p.Slot(k);
      }
    }
  }

  lemma SameSlotIsATurnAway(p: Pool, k: nat, l: nat)
    requires p.size > 0 && k < l && p.Slot(k) == p.Slot(l)
    ensures l >= k + p.size
  {
    var e := l / p.size - k / p.size;
    assert p.size * e == p.size * (l / p.size) - p.size * (k / p.size) == l - k;
    if e >= 1 {
      MulAtLeast(p.size, e);
    } else {
      MulAtLeast(p.size, 1 - e);
    }
  }

  /** The cursor value at which a leasing operation found its index. */
  function FoundAt(p: Pool): nat { p.cursor + Skipped(p, p.cursor, p.size) }

  /** The turn between two leases of one index. */
  lemma TurnBetween(p: Pool, ops: seq<Op>, a: nat, b: nat, idx: int)
    requires a < b && Leases(p, ops, a, idx) && Leases(p, ops, b, idx)
    ensures p.size > 0 && FoundAt(StateAt(p, ops, b)) >= FoundAt(StateAt(p, ops, a)) + p.size
    ensures StateAt(p, ops, a + 1).cursor == FoundAt(StateAt(p, ops, a)) + 1
  {
    FoundSlotIs(p, ops, a, idx);
    FoundSlotIs(p, ops, b, idx);
    PastTheLease(p, ops, a, idx);
    CursorGrows(p, ops, a + 1, b);
    hide Leases, StateAt;
    SameSlotIsATurnAway(p, FoundAt(StateAt(p, ops, a)), FoundAt(StateAt(p, ops, b)));
  }

  lemma PastTheLease(p: Pool, ops: seq<Op>, a: nat, idx: int)
    requires Leases(p, ops, a, idx)
    ensures StateAt(p, ops, a + 1).cursor == FoundAt(StateAt(p, ops, a)) + 1
  {
    SameRange(p, ops, a);
    hide Skipped;
  }

  lemma {:induction false} CursorGrows(p: Pool, ops: seq<Op>, a: nat, b: nat)
    requires a <= b <= |ops|
    ensures StateAt(p, ops, a).cursor <= StateAt(p, ops, b).cursor
    decreases b
  {
    if a < b {
      CursorGrows(p, ops, a, b - 1);
      SameRange(p, ops, b);
    }
  }

  /** Round robin: where nothing is refused in between, an index is leased again only after every
      other index was held at some moment since, so none stayed free all along. */
  lemma LeasedAgainAfterEveryOther(p: Pool, ops: seq<Op>, a: nat, b: nat, idx: int, other: int)
    requires a < b && Leases(p, ops, a, idx) && Leases(p, ops, b, idx)
    requires forall n :: a < n < b ==> Unrefused(p, ops, n)
    requires p.InRange(other) && other != idx
    ensures HeldBetween(p, ops, a + 1, b, other)
  {
    hide Lease;
    TurnBetween(p, ops, a, b, idx);
    hide Leases;
    SameRange(p, ops, a + 1);
    SameRange(p, ops, b);
    var first, last := StateAt(p, ops, a + 1), StateAt(p, ops, b);
    var k := WindowCovers(p, first.cursor, other);
    CursorGrows(p, ops, a + 1, b);
    FoundSlotIs(p, ops, b, idx);
    if k < last.cursor {
      PassedSlotsWereHeld(p, ops, a + 1, b, k);
    } else {
      assert k < FoundAt(last);
      assert last.Slot(k) in last.inUse;
    }
  }

  lemma {:induction false} FoundSlotIs(p: Pool, ops: seq<Op>, n: nat, idx: int)
    requires Leases(p, ops, n, idx)
    ensures p.size > 0 && p.Slot(FoundAt(StateAt(p, ops, n))) == idx
  {
    SameRange(p, ops, n);
  }
}
