/** What the relay's observer sees, over every run and on the step sequence alone: each chunk of the
    client's is shown before it is sent, and what an observer or an upstream cannot take is raised. */
module RelayTap {
  import opened Outcome
  import opened TcpRelay
  import opened RelayLaws
  import opened RelayObject

  // ---- What leaves a thread alone --------------------------------------------------------

  lemma OwnerLeavesPumps(s: Relay, step: OwnerStep)
    requires OwnerDoes(s, step).Some?
    ensures OwnerDoes(s, step).value.pumps == s.pumps
  {
  }

  /** A pump moves by its own steps alone. */
  lemma PumpMovesItself(s: Relay, step: Step, p: nat)
    requires Inv(s) && p in s.pumps && Next(s, step).Some? && !(step.OfPump? && step.thread == p)
    ensures p in Next(s, step).value.pumps && Next(s, step).value.pumps[p] == s.pumps[p]
  {
    hide Inv, AcceptDoes, PumpDoes, OwnerDoes;
    match step
    case OfAccept(t, a) => AcceptLeavesPumps(s, t, a);
    case OfPump(k, a) => PumpOnlyCloses(s, k, a);
    case OfOwner(a) => OwnerLeavesPumps(s, a);
  }

  lemma OwnerLeavesAccept(s: Relay, step: OwnerStep, t: nat)
    requires Inv(s) && t in s.accepts && OwnerDoes(s, step).Some?
    ensures t in OwnerDoes(s, step).value.accepts && OwnerDoes(s, step).value.accepts[t] == s.accepts[t]
  {
    assert ThreadOk(s, t);
    hide Inv, ThreadOk;
  }

  /** So does an accept thread. */
  lemma AcceptMovesItself(s: Relay, step: Step, t: nat)
    requires Inv(s) && t in s.accepts && Next(s, step).Some? && !(step.OfAccept? && step.thread == t)
    ensures t in Next(s, step).value.accepts && Next(s, step).value.accepts[t] == s.accepts[t]
  {
    hide Inv, AcceptDoes, PumpDoes, OwnerDoes;
    match step
    case OfAccept(k, a) => AcceptLeavesOther(s, k, a, t);
    case OfPump(p, a) => PumpOnlyCloses(s, p, a);
    case OfOwner(a) => OwnerLeavesAccept(s, a, t);
  }

  // ---- Shown before sent -----------------------------------------------------------------

  /** Step `r` is the pump's last receive. */
  ghost predicate LastReceive(steps: seq<Step>, p: nat, r: nat) {
    && r < |steps| && steps[r] == OfPump(p, Receive)
    && forall n :: r < n < |steps| ==> steps[n] != OfPump(p, Receive)
  }

  ghost predicate Received(steps: seq<Step>, p: nat) { exists r: nat :: LastReceive(steps, p, r) }

  /** The observer took what the pump received last. */
  ghost predicate Shown(steps: seq<Step>, p: nat) {
    exists r: nat, k: nat :: LastReceive(steps, p, r) && r < k < |steps| && steps[k] == OfPump(p, ObserverPasses)
  }

  lemma HistoryGrows(steps: seq<Step>, step: Step, p: nat)
    requires step != OfPump(p, Receive)
    ensures Received(steps, p) ==> Received(steps + [step], p)
    ensures Shown(steps, p) ==> Shown(steps + [step], p)
    ensures Received(steps, p) && step == OfPump(p, ObserverPasses) ==> Shown(steps + [step], p)
  {
    var more := steps + [step];
    if r: nat :| LastReceive(steps, p, r) {
      assert LastReceive(more, p, r);
      assert more[|steps|] == step;
    }
    if r: nat, k: nat :| LastReceive(steps, p, r) && r < k < |steps| && steps[k] == OfPump(p, ObserverPasses) {
      assert LastReceive(more, p, r) && more[k] == steps[k];
    }
  }

  /** What a pump holds tells what it did. */
  ghost predicate Telling(pc: Pump, steps: seq<Step>, p: nat) {
    && (pc.Showing? || pc.Sending? ==> Received(steps, p))
    && (pc.Sending? && pc.way.observed ==> Shown(steps, p))
  }

  lemma {:induction false} PumpTells(steps: seq<Step>, p: nat)
    requires Run(steps).Some? && p in Run(steps).value.pumps
    ensures Telling(Run(steps).value.pumps[p], steps, p)
    decreases |steps|
  {
    hide Run, Next, Received, Shown, Inv;
    if steps == [] {
      NothingRuns();
    } else {
      var before, step := steps[..|steps| - 1], steps[|steps| - 1];
      assert steps == before + [step];
      RunOn(before, step);
      EveryRunKeeps(before);
      var s := Run(before).value;
      if p in s.pumps {
        PumpTells(before, p);
        PumpTellsOn(s, before, step, p);
      } else {
        StartsReading(s, step, p);
      }
    }
  }

  lemma NothingRuns()
    ensures Run([]) == Some(FRESH)
  {
  }

  lemma StartsReading(s: Relay, step: Step, p: nat)
    requires Inv(s) && Next(s, step).Some? && p !in s.pumps && p in Next(s, step).value.pumps
    ensures Next(s, step).value.pumps[p].Reading?
  {
    hide Inv, AcceptDoes, PumpDoes, OwnerDoes;
    match step
    case OfAccept(t, a) => AcceptStartsReading(s, t, a, p);
    case OfPump(k, a) => PumpOnlyCloses(s, k, a);
    case OfOwner(a) => OwnerLeavesPumps(s, a);
  }

  lemma AcceptStartsReading(s: Relay, t: nat, step: AcceptStep, p: nat)
    requires t in s.accepts && AcceptDoes(s, t, step).Some? && p !in s.pumps && p in AcceptDoes(s, t, step).value.pumps
    ensures AcceptDoes(s, t, step).value.pumps[p].Reading?
  {
    match step
    case StartPump =>
    case FailListener =>
    case StartPair =>
    case GetClient =>
    case Connect =>
    case ConnectError =>
    case _ =>
  }

  lemma PumpTellsOn(s: Relay, steps: seq<Step>, step: Step, p: nat)
    requires Inv(s) && p in s.pumps && Next(s, step).Some? && Telling(s.pumps[p], steps, p)
    ensures p in Next(s, step).value.pumps && Telling(Next(s, step).value.pumps[p], steps + [step], p)
  {
    hide Inv, Telling, AcceptDoes, OwnerDoes, PumpDoes, Received, Shown, LastReceive;
    if step.OfPump? && step.thread == p {
      OwnStepTells(s, steps, step.pump, p);
    } else {
      PumpMovesItself(s, step, p);
      HistoryGrows(steps, step, p);
      StillTelling(s.pumps[p], steps, step, p);
    }
  }

  lemma StillTelling(pc: Pump, steps: seq<Step>, step: Step, p: nat)
    requires Telling(pc, steps, p)
    requires (Received(steps, p) ==> Received(steps + [step], p)) && (Shown(steps, p) ==> Shown(steps + [step], p))
    ensures Telling(pc, steps + [step], p)
  {
    hide Received, Shown;
  }

  lemma OwnStepTells(s: Relay, steps: seq<Step>, step: PumpStep, p: nat)
    requires p in s.pumps && PumpDoes(s, p, step).Some? && Telling(s.pumps[p], steps, p)
    ensures var r := PumpDoes(s, p, step).value; p in r.pumps && Telling(r.pumps[p], steps + [OfPump(p, step)], p)
  {
    hide Received, Shown, LastReceive, Inv;
    if step == Receive {
      ReceivesNow(steps, p);
    } else {
      HistoryGrows(steps, OfPump(p, step), p);
    }
  }

  lemma ReceivesNow(steps: seq<Step>, p: nat)
    ensures Received(steps + [OfPump(p, Receive)], p)
  {
    assert LastReceive(steps + [OfPump(p, Receive)], p, |steps|);
    hide LastReceive;
    NowReceived(steps + [OfPump(p, Receive)], p, |steps|);
  }

  lemma NowReceived(steps: seq<Step>, p: nat, r: nat)
    requires LastReceive(steps, p, r)
    ensures Received(steps, p)
  {
  }

  /** The pump reads for the observer. */
  predicate Watched(s: Relay, p: nat) { p in s.pumps && s.pumps[p].Registered() && s.pumps[p].way.observed }

  /** Every chunk a watched pump sends was shown to the observer after it was received. */
  lemma {:induction false} ForwardIsShown(steps: seq<Step>, n: nat, p: nat)
    requires n < |steps| && steps[n] == OfPump(p, Forward) && Run(steps[..n + 1]).Some?
    requires Run(steps[..n]).Some? ==> Watched(Run(steps[..n]).value, p)
    ensures Run(steps[..n]).Some? && Shown(steps[..n], p)
  {
    hide Run, Shown;
    RunPrefix(steps, n + 1);
    PumpTells(steps[..n], p);
  }

  /** The accept thread's step `b` is its next after step `a`. */
  ghost predicate NextOwn(steps: seq<Step>, t: nat, a: nat, b: nat) {
    && a < b < |steps| && steps[a].OfAccept? && steps[a].thread == t && steps[b].OfAccept? && steps[b].thread == t
    && forall n :: a < n < b ==> !(steps[n].OfAccept? && steps[n].thread == t)
  }

  /** Where the thread stood when it took step `b`. */
  function PlaceAt(steps: seq<Step>, t: nat, b: nat): Option<Accept>
    requires b <= |steps|
  {
    match Run(steps[..b])
    case None => None
    case Some(s) => if t in s.accepts then Some(s.accepts[t]) else None
  }

  lemma {:induction false} RunsBefore(steps: seq<Step>, n: nat)
    requires Run(steps).Some? && n <= |steps|
    ensures Run(steps[..n]).Some?
    decreases |steps|
  {
    if n == |steps| {
      assert steps[..n] == steps;
    } else {
      assert steps[..|steps| - 1][..n] == steps[..n];
      RunsBefore(steps[..|steps| - 1], n);
    }
  }

  lemma {:induction false} ThreadWaits(steps: seq<Step>, t: nat, a: nat, b: nat)
    requires Run(steps).Some? && a <= b <= |steps| && PlaceAt(steps, t, a).Some?
    requires forall n :: a <= n < b ==> !(steps[n].OfAccept? && steps[n].thread == t)
    ensures PlaceAt(steps, t, b) == PlaceAt(steps, t, a)
    decreases b
  {
    hide Run, Next, Inv;
    if a < b {
      ThreadWaits(steps, t, a, b - 1);
      RunsBefore(steps, b);
      RunsBefore(steps, b - 1);
      RunPrefix(steps, b);
      EveryRunKeeps(steps[..b - 1]);
      AcceptMovesItself(Run(steps[..b - 1]).value, steps[b - 1], t);
    }
  }

  /** One own step after the other: where the first left the thread is where the second finds it. */
  lemma {:induction false} OwnStep(steps: seq<Step>, t: nat, a: nat, b: nat)
    requires Run(steps).Some? && NextOwn(steps, t, a, b)
    ensures Run(steps[..a]).Some? && Run(steps[..b]).Some?
    ensures var s := Run(steps[..a]).value;
      && t in s.accepts && Next(s, steps[a]).Some? && t in Next(s, steps[a]).value.accepts
      && t in Run(steps[..b]).value.accepts && Run(steps[..b]).value.accepts[t] == Next(s, steps[a]).value.accepts[t]
  {
    hide Run, AcceptDoes;
    RunsBefore(steps, a);
    RunsBefore(steps, a + 1);
    RunsBefore(steps, b);
    RunPrefix(steps, a + 1);
    StillThere(Run(steps[..a]).value, t, steps[a].accept);
    ThreadWaits(steps, t, a + 1, b);
  }

  lemma StillThere(s: Relay, t: nat, step: AcceptStep)
    requires t in s.accepts && AcceptDoes(s, t, step).Some?
    ensures t in AcceptDoes(s, t, step).value.accepts
  {
    hide AcceptDoes;
    AcceptLeavesOther(s, t, step, t);
  }

  // ---- Who is watched --------------------------------------------------------------------

  /** What the thread's places come to, one own step after the other. */
  lemma PairPlaces(s: Relay, t: nat, step: AcceptStep)
    requires t in s.accepts && AcceptDoes(s, t, step).Some?
    ensures var r := AcceptDoes(s, t, step).value; t in r.accepts && var pc, now := s.accepts[t], r.accepts[t];
      && (step.GetClient? ==> now == Connecting(pc.l, s.next))
      && (step.Connect? ==> pc.Connecting? && now == Pairing(pc.l, pc.client, s.next))
      && (step.StartPair? && now.Observing? ==> pc.Pairing? && now == Observing(pc.l, pc.client, pc.upstream))
      && (step.Observe? ==> pc.Observing? && now == StartingBoth(pc.l, pc.client, pc.upstream, step.observed))
  {
    match step
    case StartPump =>
    case FailListener =>
    case StartPair =>
    case GetClient =>
    case Connect =>
    case ConnectError =>
    case _ =>
  }

  lemma PumpPlaces(s: Relay, t: nat, step: AcceptStep)
    requires t in s.accepts && AcceptDoes(s, t, step).Some? && (s.accepts[t].StartingBoth? || s.accepts[t].StartingBack?)
    ensures var r := AcceptDoes(s, t, step).value; t in r.accepts && s.next in r.pumps && var pc := s.accepts[t];
      && step == StartPump
      && (pc.StartingBoth? ==> r.accepts[t] == StartingBack(pc.l, pc.client, pc.upstream)
                               && r.pumps[s.next] == Reading(Direction(pc.client, pc.upstream, pc.observed)))
      && (pc.StartingBack? ==> r.pumps[s.next] == Reading(Direction(pc.upstream, pc.client, false)))
  {
  }

  /** A thread that takes a client, connects, pairs and asks the factory starts two pumps: the client's
      to the upstream, watched if the factory gave an observer, and the upstream's back, unwatched. */
  lemma {:induction false} PairStarts(steps: seq<Step>, t: nat, g: nat, h: nat, d: nat, i: nat, j: nat, k: nat, observed: bool)
    requires Run(steps).Some? && NextOwn(steps, t, g, h) && NextOwn(steps, t, h, d) && NextOwn(steps, t, d, i)
    requires NextOwn(steps, t, i, j) && NextOwn(steps, t, j, k)
    requires steps[g].accept == GetClient && steps[h].accept == Connect && steps[d].accept == StartPair
    requires steps[i].accept == Observe(observed)
    ensures steps[j].accept == steps[k].accept == StartPump
    ensures Run(steps[..g]).Some? && Run(steps[..h]).Some? && Run(steps[..j]).Some? && Run(steps[..k]).Some?
    ensures Run(steps[..j + 1]).Some? && Run(steps[..k + 1]).Some?
    ensures var client, upstream := Run(steps[..g]).value.next, Run(steps[..h]).value.next;
      var out, back := Run(steps[..j]).value.next, Run(steps[..k]).value.next;
      && out in Run(steps[..j + 1]).value.pumps && back in Run(steps[..k + 1]).value.pumps
      && Run(steps[..j + 1]).value.pumps[out] == Reading(Direction(client, upstream, observed))
      && Run(steps[..k + 1]).value.pumps[back] == Reading(Direction(upstream, client, false))
  {
    hide Run, NextOwn;
    PairReachesFactory(steps, t, g, h, d, i);
    BothStart(steps, t, i, j, k, observed);
  }

  lemma {:induction false} BothStart(steps: seq<Step>, t: nat, i: nat, j: nat, k: nat, observed: bool)
    requires Run(steps).Some? && NextOwn(steps, t, i, j) && NextOwn(steps, t, j, k) && steps[i].accept == Observe(observed)
    requires Run(steps[..i]).Some? && t in Run(steps[..i]).value.accepts
    ensures steps[j].accept == steps[k].accept == StartPump
    ensures Run(steps[..j]).Some? && Run(steps[..k]).Some? && Run(steps[..j + 1]).Some? && Run(steps[..k + 1]).Some?
    ensures Run(steps[..i]).value.accepts[t].Observing?
    ensures var pc, out, back := Run(steps[..i]).value.accepts[t], Run(steps[..j]).value.next, Run(steps[..k]).value.next;
      && out in Run(steps[..j + 1]).value.pumps && back in Run(steps[..k + 1]).value.pumps
      && Run(steps[..j + 1]).value.pumps[out] == Reading(Direction(pc.client, pc.upstream, observed))
      && Run(steps[..k + 1]).value.pumps[back] == Reading(Direction(pc.upstream, pc.client, false))
  {
    hide Run, AcceptDoes;
    OwnStep(steps, t, i, j);
    PairPlaces(Run(steps[..i]).value, t, steps[i].accept);
    OwnStep(steps, t, j, k);
    PumpPlaces(Run(steps[..j]).value, t, steps[j].accept);
    hide NextOwn;
    RunsBefore(steps, j + 1);
    RunPrefix(steps, j + 1);
    LastStarts(steps, t, k);
  }

  lemma {:induction false} LastStarts(steps: seq<Step>, t: nat, k: nat)
    requires Run(steps).Some? && k < |steps| && steps[k].OfAccept? && steps[k].thread == t
    requires Run(steps[..k]).Some? && t in Run(steps[..k]).value.accepts && Run(steps[..k]).value.accepts[t].StartingBack?
    ensures Run(steps[..k + 1]).Some? && steps[k].accept == StartPump
    ensures var s, r := Run(steps[..k]).value, Run(steps[..k + 1]).value; var pc := s.accepts[t];
      s.next in r.pumps && r.pumps[s.next] == Reading(Direction(pc.upstream, pc.client, false))
  {
    hide Run, AcceptDoes;
    RunsBefore(steps, k + 1);
    RunPrefix(steps, k + 1);
    PumpPlaces(Run(steps[..k]).value, t, steps[k].accept);
  }

  lemma {:induction false} PairReachesFactory(steps: seq<Step>, t: nat, g: nat, h: nat, d: nat, i: nat)
    requires Run(steps).Some? && NextOwn(steps, t, g, h) && NextOwn(steps, t, h, d) && NextOwn(steps, t, d, i)
    requires steps[g].accept == GetClient && steps[h].accept == Connect && steps[d].accept == StartPair && steps[i].accept.Observe?
    ensures Run(steps[..g]).Some? && Run(steps[..h]).Some? && Run(steps[..i]).Some? && t in Run(steps[..i]).value.accepts
    ensures Run(steps[..i]).value.accepts[t].Observing?
    ensures var pc := Run(steps[..i]).value.accepts[t];
      pc.client == Run(steps[..g]).value.next && pc.upstream == Run(steps[..h]).value.next
  {
    hide Run, AcceptDoes;
    OwnStep(steps, t, g, h);
    PairPlaces(Run(steps[..g]).value, t, steps[g].accept);
    OwnStep(steps, t, h, d);
    PairPlaces(Run(steps[..h]).value, t, steps[h].accept);
    OwnStep(steps, t, d, i);
    PairPlaces(Run(steps[..d]).value, t, steps[d].accept);
    RunsBefore(steps, i + 1);
    RunPrefix(steps, i + 1);
    PairPlaces(Run(steps[..i]).value, t, steps[i].accept);
  }

  /** A pump keeps its way for as long as it has one, and one that unwinds goes on unwinding. */
  lemma {:induction false} WayStays(steps: seq<Step>, p: nat, a: nat, b: nat)
    requires Run(steps).Some? && a <= b <= |steps| && Run(steps[..a]).Some? && p in Run(steps[..a]).value.pumps
    ensures Run(steps[..b]).Some? && p in Run(steps[..b]).value.pumps
    ensures var was, now := Run(steps[..a]).value.pumps[p], Run(steps[..b]).value.pumps[p];
      && (now.Registered() ==> was.Registered() && now.way == was.way)
      && (PumpRank(was) <= 2 ==> PumpRank(now) <= 2)
    decreases b
  {
    hide Run, Next, Inv, PumpRank;
    if a < b {
      RunsBefore(steps, b);
      RunsBefore(steps, b - 1);
      RunPrefix(steps, b);
      WayStays(steps, p, a, b - 1);
      EveryRunKeeps(steps[..b - 1]);
      WayStaysOnce(Run(steps[..b - 1]).value, steps[b - 1], p);
    }
  }

  lemma WayStaysOnce(s: Relay, step: Step, p: nat)
    requires Inv(s) && p in s.pumps && Next(s, step).Some?
    ensures p in Next(s, step).value.pumps
    ensures var was, now := s.pumps[p], Next(s, step).value.pumps[p];
      && (now.Registered() ==> was.Registered() && now.way == was.way)
      && (PumpRank(was) <= 2 ==> PumpRank(now) <= 2)
  {
    hide Inv, AcceptDoes, PumpDoes, OwnerDoes;
    if step.OfPump? && step.thread == p {
      PumpOnlyCloses(s, p, step.pump);
      UnwindingGoesOn(s, p, step.pump);
    } else {
      PumpMovesItself(s, step, p);
    }
  }

  lemma UnwindingGoesOn(s: Relay, p: nat, step: PumpStep)
    requires p in s.pumps && PumpDoes(s, p, step).Some?
    ensures var r := PumpDoes(s, p, step).value; p in r.pumps && (PumpRank(s.pumps[p]) <= 2 ==> PumpRank(r.pumps[p]) <= 2)
    ensures step.ObserverRaises? ==> PumpDoes(s, p, step).value.pumps[p].Unwinding?
    ensures step.Forward? ==> s.pumps[p].Sending?
  {
  }

  /** Of the pair a thread starts with an observer every chunk of the client's is shown after it was
      received and before it is sent. */
  lemma {:induction false} ChunksAreShown(steps: seq<Step>, t: nat, i: nat, j: nat, n: nat)
    requires Run(steps).Some? && NextOwn(steps, t, i, j) && steps[i].accept == Observe(true)
    requires Run(steps[..j]).Some? ==> j < n < |steps| && steps[n] == OfPump(Run(steps[..j]).value.next, Forward)
    ensures Run(steps[..j]).Some? && j < n < |steps| && Shown(steps[..n], Run(steps[..j]).value.next)
  {
    hide Run, AcceptDoes, Shown;
    OwnStep(steps, t, i, j);
    PairPlaces(Run(steps[..i]).value, t, steps[i].accept);
    RunsBefore(steps, j + 1);
    RunPrefix(steps, j + 1);
    PumpPlaces(Run(steps[..j]).value, t, steps[j].accept);
    var p := Run(steps[..j]).value.next;
    WayStays(steps, p, j + 1, n);
    RunsBefore(steps, n + 1);
    RunPrefix(steps, n + 1);
    UnwindingGoesOn(Run(steps[..n]).value, p, Forward);
    ForwardIsShown(steps, n, p);
  }

  /** What an observer raised at is never sent, and nothing after it. */
  lemma {:induction false} NothingAfterARaise(steps: seq<Step>, p: nat, m: nat, n: nat)
    requires Run(steps).Some? && m < n < |steps| && steps[m] == OfPump(p, ObserverRaises)
    ensures steps[n] != OfPump(p, Forward)
  {
    hide Run, PumpDoes;
    RunsBefore(steps, m + 1);
    RunsBefore(steps, n + 1);
    RunPrefix(steps, m + 1);
    RunPrefix(steps, n + 1);
    UnwindingGoesOn(Run(steps[..m]).value, p, ObserverRaises);
    WayStays(steps, p, m + 1, n);
    if steps[n] == OfPump(p, Forward) {
      UnwindingGoesOn(Run(steps[..n]).value, p, Forward);
    }
  }

  // ---- What is raised --------------------------------------------------------------------

  /** The owner raises no failure after step `m`. */
  predicate Unraised(steps: seq<Step>, m: nat) {
    forall n :: m < n < |steps| ==> steps[n] != OfOwner(RaiseIfFailed) && steps[n] != OfOwner(EndStop)
  }

  /** A failure on record, or an accept thread about to put one there. */
  predicate OnRecord(s: Relay, t: Option<nat>) {
    s.failure || (t.Some? && t.value in s.accepts && s.accepts[t.value].Failing?)
  }

  lemma AcceptKeepsRecord(s: Relay, t: nat, step: AcceptStep)
    requires t in s.accepts && AcceptDoes(s, t, step).Some?
    ensures s.failure ==> AcceptDoes(s, t, step).value.failure
    ensures s.accepts[t].Failing? ==> AcceptDoes(s, t, step).value.failure
    ensures step.ConnectError? ==> t in AcceptDoes(s, t, step).value.accepts && AcceptDoes(s, t, step).value.accepts[t].Failing?
  {
    match step
    case StartPump =>
    case FailListener =>
    case StartPair =>
    case GetClient =>
    case Connect =>
    case ConnectError =>
    case _ =>
  }

  lemma PumpKeepsRecord(s: Relay, p: nat, step: PumpStep)
    requires p in s.pumps && PumpDoes(s, p, step).Some?
    ensures s.failure || step.ObserverRaises? ==> PumpDoes(s, p, step).value.failure
  {
  }

  lemma OwnerKeepsRecord(s: Relay, step: OwnerStep)
    requires OwnerDoes(s, step).Some? && step != RaiseIfFailed && step != EndStop
    ensures s.failure ==> OwnerDoes(s, step).value.failure
  {
  }

  lemma RecordStays(s: Relay, step: Step, t: Option<nat>)
    requires Inv(s) && Next(s, step).Some? && OnRecord(s, t) && step != OfOwner(RaiseIfFailed) && step != OfOwner(EndStop)
    ensures OnRecord(Next(s, step).value, t)
  {
    hide Inv, AcceptDoes, PumpDoes, OwnerDoes;
    if s.failure {
      match step
      case OfAccept(k, a) => AcceptKeepsRecord(s, k, a);
      case OfPump(p, a) => PumpKeepsRecord(s, p, a);
      case OfOwner(a) => OwnerKeepsRecord(s, a);
    } else if step.OfAccept? && step.thread == t.value {
      AcceptKeepsRecord(s, step.thread, step.accept);
    } else {
      AcceptMovesItself(s, step, t.value);
    }
  }

  lemma {:induction false} RecordKept(steps: seq<Step>, t: Option<nat>, m: nat, n: nat)
    requires Run(steps).Some? && m < n <= |steps| && Unraised(steps, m)
    requires Run(steps[..m + 1]).Some? ==> OnRecord(Run(steps[..m + 1]).value, t)
    ensures Run(steps[..n]).Some? && OnRecord(Run(steps[..n]).value, t)
    decreases n
  {
    hide Run, Next, Inv, OnRecord;
    RunsBefore(steps, n);
    if m + 1 < n {
      RecordKept(steps, t, m, n - 1);
      RunPrefix(steps, n);
      EveryRunKeeps(steps[..n - 1]);
      RecordStays(Run(steps[..n - 1]).value, steps[n - 1], t);
    }
  }

  /** What an observer or an upstream refused is on record when a stop has joined the threads, unless the
      owner was told before: the stop raises it. */
  lemma {:induction false} FaultsAreRaised(steps: seq<Step>, m: nat)
    requires Run(steps).Some? && Run(steps).value.ctl.StopJoining? && m < |steps| && Unraised(steps, m)
    requires (steps[m].OfPump? && steps[m].pump.ObserverRaises?) || (steps[m].OfAccept? && steps[m].accept.ConnectError?)
    ensures Run(steps).value.failure
  {
    hide Run, AcceptDoes, PumpDoes, OwnerDoes, Inv, Unraised;
    var s := Run(steps).value;
    RunsBefore(steps, m + 1);
    RunPrefix(steps, m + 1);
    var t := if steps[m].OfAccept? then Some(steps[m].thread) else None;
    if steps[m].OfAccept? {
      AcceptKeepsRecord(Run(steps[..m]).value, steps[m].thread, steps[m].accept);
    } else {
      PumpKeepsRecord(Run(steps[..m]).value, steps[m].thread, steps[m].pump);
    }
    RecordKept(steps, t, m, |steps|);
    assert steps[..|steps|] == steps;
    EveryRunKeeps(steps);
    JoinedIsDone(s);
  }

  lemma JoinedIsDone(s: Relay)
    requires Inv(s) && s.ctl.StopJoining?
    ensures forall t :: t in s.accepts ==> !s.accepts[t].Failing?
  {
    NoneActs(s);
  }

  /** A step that puts a failure on record. */
  predicate Records(step: Step) {
    (step.OfPump? && step.pump.ObserverRaises?) || (step.OfAccept? && step.accept.FailListener?)
  }

  lemma AcceptRecords(s: Relay, t: nat, step: AcceptStep)
    requires t in s.accepts && AcceptDoes(s, t, step).Some?
    ensures AcceptDoes(s, t, step).value.failure <==> s.failure || step.FailListener?
  {
    match step
    case StartPump =>
    case FailListener =>
    case StartPair =>
    case GetClient =>
    case Connect =>
    case ConnectError =>
    case _ =>
  }

  lemma OwnerTells(s: Relay, step: OwnerStep)
    requires OwnerDoes(s, step).Some?
    ensures OwnerDoes(s, step).value.failure <==> s.failure && step != RaiseIfFailed && step != EndStop
  {
  }

  /** A step leaves a failure on record exactly if it puts one there, or one was and the owner is not told. */
  lemma OnlyTellingForgets(s: Relay, step: Step)
    requires Next(s, step).Some?
    ensures Next(s, step).value.failure <==>
      Records(step) || (s.failure && step != OfOwner(RaiseIfFailed) && step != OfOwner(EndStop))
  {
    hide AcceptDoes, PumpDoes, OwnerDoes;
    match step
    case OfAccept(t, a) => AcceptRecords(s, t, a);
    case OfPump(p, a) => PumpRecords(s, p, a);
    case OfOwner(a) => OwnerTells(s, a);
  }

  lemma PumpRecords(s: Relay, p: nat, step: PumpStep)
    requires p in s.pumps && PumpDoes(s, p, step).Some?
    ensures PumpDoes(s, p, step).value.failure <==> s.failure || step.ObserverRaises?
  {
  }

  /** Between its calls the owner may always ask, and is told of each failure once: one it is told of
      later was put on record later. */
  lemma {:induction false} ToldOnce(steps: seq<Step>, m: nat)
    requires Run(steps).Some? && m < |steps| && (steps[m] == OfOwner(RaiseIfFailed) || steps[m] == OfOwner(EndStop))
    ensures Run(steps).value.failure ==> exists n :: m < n < |steps| && Records(steps[n])
    ensures Run(steps).value.ctl == Idle ==>
      Next(Run(steps).value, OfOwner(RaiseIfFailed)) == Some(Run(steps).value.(failure := false))
    decreases |steps|
  {
    hide AcceptDoes, PumpDoes, Records, OnRecord;
    var last := |steps| - 1;
    OnlyTellingForgets(Run(steps[..last]).value, steps[last]);
    hide Next;
    if Run(steps).value.failure && !Records(steps[last]) {
      ToldOnce(steps[..last], m);
      var n :| m < n < last && Records(steps[..last][n]);
      assert Records(steps[n]);
    }
  }

  /** Once a stop has begun no further pair is adopted. */
  lemma StoppedAdoptsNothing(s: Relay, step: Step)
    requires Inv(s) && s.stopped && Next(s, step).Some?
    ensures Next(s, step).value.live <= s.live
  {
    hide Inv, AcceptDoes, PumpDoes, OwnerDoes;
    match step
    case OfAccept(t, a) => StoppedThreadAdoptsNothing(s, t, a);
    case OfPump(p, a) => PumpOnlyCloses(s, p, a);
    case OfOwner(a) => OwnerAdoptsNothing(s, a);
  }

  lemma StoppedThreadAdoptsNothing(s: Relay, t: nat, step: AcceptStep)
    requires s.stopped && t in s.accepts && AcceptDoes(s, t, step).Some?
    ensures AcceptDoes(s, t, step).value.live <= s.live
  {
    match step
    case StartPump =>
    case FailListener =>
    case StartPair =>
    case GetClient =>
    case Connect =>
    case ConnectError =>
    case _ =>
  }

  lemma OwnerAdoptsNothing(s: Relay, step: OwnerStep)
    requires OwnerDoes(s, step).Some?
    ensures OwnerDoes(s, step).value.live <= s.live
  {
  }

  /** A relay is started once, and one that was stopped since opens no listener again. */
  lemma StartedOnce(s: Relay, step: Step)
    requires Inv(s) && s.port.Some? && Next(s, step).Some?
    ensures Next(s, step).value.port == s.port
    ensures s.stopped && s.listener.None? ==> Next(s, step).value.listener.None? && Next(s, step).value.stopped
  {
    hide Inv, AcceptDoes, PumpDoes, OwnerDoes;
    match step
    case OfAccept(t, a) => AcceptOpensNothing(s, t, a);
    case OfPump(p, a) =>
      PumpOnlyCloses(s, p, a);
      PumpLeavesOwner(s, p, a);
    case OfOwner(a) => OwnerOpensNothing(s, a);
  }

  lemma OwnerOpensNothing(s: Relay, step: OwnerStep)
    requires s.port.Some? && OwnerDoes(s, step).Some?
    ensures var r := OwnerDoes(s, step).value;
      r.port == s.port && (s.stopped ==> r.stopped && (s.listener.None? ==> r.listener.None?))
  {
  }

  lemma AcceptOpensNothing(s: Relay, t: nat, step: AcceptStep)
    requires t in s.accepts && AcceptDoes(s, t, step).Some?
    ensures var r := AcceptDoes(s, t, step).value;
      r.port == s.port && r.stopped == s.stopped && (s.listener.None? ==> r.listener.None?)
  {
    AcceptLeavesOwner(s, t, step);
    match step
    case StartPump =>
    case FailListener =>
    case StartPair =>
    case GetClient =>
    case Connect =>
    case ConnectError =>
    case _ =>
  }

  // ---- From one step to the next ---------------------------------------------------------

  function AfterTwo(s: Relay, a: Step, b: Step): Option<Relay> {
    match Next(s, a)
    case None => None
    case Some(r) => Next(r, b)
  }

  function AfterThree(s: Relay, a: Step, b: Step, c: Step): Option<Relay> {
    match AfterTwo(s, a, b)
    case None => None
    case Some(r) => Next(r, c)
  }

  /** A pump passes on what it reads while both its sockets are open, an observed one once it was shown,
      and stands where it stood. */
  lemma ChunkPasses(s: Relay, p: nat)
    requires p in s.pumps && s.pumps[p].Reading? && s.pumps[p].way.src in s.open && s.pumps[p].way.dst in s.open
    ensures (if s.pumps[p].way.observed then AfterThree(s, OfPump(p, Receive), OfPump(p, ObserverPasses), OfPump(p, Forward))
             else AfterTwo(s, OfPump(p, Receive), OfPump(p, Forward))) == Some(s)
  {
    hide AcceptDoes, OwnerDoes;
    var way := s.pumps[p].way;
    assert s.pumps[p := Showing(way)][p := Sending(way)] == s.pumps[p := Sending(way)];
    assert s.pumps[p := Sending(way)][p := Reading(way)] == s.pumps;
  }

  /** At its end, or where its observer raises, it gives up its own source and leaves its peer's socket
      to the other pump. */
  lemma PumpUnwinds(s: Relay, p: nat)
    requires p in s.pumps && (s.pumps[p].Reading? || s.pumps[p].Sending? || s.pumps[p].Showing?)
    ensures var showing, source := s.pumps[p].Showing?, s.pumps[p].way.src;
      var gone := s.(pumps := s.pumps[p := Finished], live := s.live - {source}, open := s.open - {source});
      AfterThree(s, OfPump(p, if showing then ObserverRaises else End), OfPump(p, Deregister), OfPump(p, CloseSource)) ==
        Some(gone.(failure := s.failure || showing, faulted := s.faulted || showing))
  {
    hide AcceptDoes, OwnerDoes;
    var way := s.pumps[p].way;
    assert s.pumps[p := Unwinding(way)][p := Closing(way.src)][p := Finished] == s.pumps[p := Finished];
  }

  /** A quiet listener is listened to again. */
  lemma TimeOutGoesOn(s: Relay, t: nat)
    requires t in s.accepts && s.accepts[t].Accepting? && s.listener == Some(s.accepts[t].l)
    ensures AfterTwo(s, OfAccept(t, TimeOut), OfAccept(t, Check)) == Some(s)
  {
    hide PumpDoes, OwnerDoes;
    assert s.accepts[t := Checking(s.accepts[t].l)][t := s.accepts[t]] == s.accepts;
  }

  /** An accept that fails closes the current listener, so that clients are refused and a restore
      reopens it, and is on record. */
  lemma ErrorClosesListener(s: Relay, t: nat)
    requires t in s.accepts && s.accepts[t].Accepting? && s.listener == Some(s.accepts[t].l)
    requires s.accepts[t].l in s.openListeners
    ensures var l := s.accepts[t].l;
      AfterThree(s, OfAccept(t, AcceptError), OfAccept(t, Recheck), OfAccept(t, FailListener)) ==
        Some(s.(accepts := s.accepts[t := Leaving(l)], listener := None, openListeners := s.openListeners - {l},
                failure := true, faulted := true))
  {
    hide PumpDoes, OwnerDoes;
    var l := s.accepts[t].l;
    assert s.accepts[t := Erring(l, true)][t := Failing(l)][t := Leaving(l)] == s.accepts[t := Leaving(l)];
  }

  /** One that a sever's own close broke off leaves nothing behind. */
  lemma SeveredAcceptIsSilent(s: Relay, t: nat)
    requires t in s.accepts && s.accepts[t].Accepting? && s.listener != Some(s.accepts[t].l)
    requires s.accepts[t].l !in s.openListeners
    ensures AfterThree(s, OfAccept(t, AcceptError), OfAccept(t, Recheck), OfAccept(t, Leave)) ==
            Some(s.(accepts := s.accepts[t := Exited(s.accepts[t].l)]))
  {
    hide PumpDoes, OwnerDoes;
    var l := s.accepts[t].l;
    assert s.accepts[t := Erring(l, false)][t := Leaving(l)][t := Exited(l)] == s.accepts[t := Exited(l)];
  }

  /** An upstream that refuses closes the client it was for, and the current listener with it. */
  lemma RefusalClosesListener(s: Relay, t: nat)
    requires t in s.accepts && s.accepts[t].Connecting? && s.listener == Some(s.accepts[t].l)
    ensures var l := s.accepts[t].l;
      AfterTwo(s, OfAccept(t, ConnectError), OfAccept(t, FailListener)) ==
        Some(s.(accepts := s.accepts[t := Leaving(l)], open := s.open - {s.accepts[t].client},
                listener := None, openListeners := s.openListeners - {l}, failure := true, faulted := true))
  {
    hide PumpDoes, OwnerDoes;
    var l := s.accepts[t].l;
    assert s.accepts[t := Failing(l)][t := Leaving(l)] == s.accepts[t := Leaving(l)];
  }

  /** A relay that is severed and not stopped listens again on the same port, with a thread of its own, as
      often as it is restored; one that listens is left as it is, and nothing else is restored. */
  lemma RestoreReopens(s: Relay, binds: bool)
    ensures s.ctl == Idle && s.port.Some? && !s.stopped && s.listener.None? ==>
      && Next(s, OfOwner(Restore(false))) == Some(s)
      && Next(s, OfOwner(Restore(true))).Some?
      && var r := Next(s, OfOwner(Restore(true))).value;
         && r.port == s.port && r.live == s.live && r.open == s.open && r.pumps == s.pumps
         && r.listener == Some(s.next) && r.openListeners == s.openListeners + {s.next} && r.acceptThread == Some(s.next + 1)
         && AfterTwo(s, OfOwner(Restore(true)), OfAccept(s.next + 1, Check)) ==
              Some(r.(accepts := s.accepts[s.next + 1 := Accepting(s.next)]))
    ensures s.ctl != Idle || s.port.None? || s.stopped || s.listener.Some? ==> Next(s, OfOwner(Restore(binds))) == None
  {
    hide PumpDoes;
    assert s.accepts[s.next + 1 := Checking(s.next)][s.next + 1 := Accepting(s.next)] == s.accepts[s.next + 1 := Accepting(s.next)];
  }

  /** What a thread may close: an accept thread the sockets it holds, a pump its own source, the owner what
      a sever took over. */
  function Closable(s: Relay, step: Step): set<nat> {
    match step
    case OfAccept(t, _) => if t in s.accepts then s.accepts[t].Held() else {}
    case OfPump(p, _) =>
      if p in s.pumps && s.pumps[p].Source().Some? then {s.pumps[p].Source().value} else {}
    case OfOwner(_) => s.ctl.Conns()
  }

  /** No step closes any other socket. */
  lemma ClosesItsOwn(s: Relay, step: Step)
    requires Next(s, step).Some?
    ensures s.open - Next(s, step).value.open <= Closable(s, step)
  {
    hide AcceptDoes, PumpDoes, OwnerDoes;
    match step
    case OfAccept(t, a) => AcceptClosesItsOwn(s, t, a);
    case OfPump(p, a) => PumpClosesItsOwn(s, p, a);
    case OfOwner(a) => OwnerClosesItsOwn(s, a);
  }

  lemma PumpClosesItsOwn(s: Relay, p: nat, step: PumpStep)
    requires p in s.pumps && PumpDoes(s, p, step).Some?
    ensures s.open - PumpDoes(s, p, step).value.open <= Closable(s, OfPump(p, step))
  {
  }

  lemma AcceptClosesItsOwn(s: Relay, t: nat, step: AcceptStep)
    requires t in s.accepts && AcceptDoes(s, t, step).Some?
    ensures s.open - AcceptDoes(s, t, step).value.open <= s.accepts[t].Held()
  {
    match step
    case StartPump =>
    case FailListener =>
    case StartPair =>
    case GetClient =>
    case Connect =>
    case ConnectError =>
    case _ =>
  }

  lemma OwnerClosesItsOwn(s: Relay, step: OwnerStep)
    requires OwnerDoes(s, step).Some?
    ensures s.open - OwnerDoes(s, step).value.open <= s.ctl.Conns()
  {
  }
}
