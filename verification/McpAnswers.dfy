/** When the session-recovering client comes back with an answer: which handshake reopens a session,
    how long a server has to keep still for a call to get through, and when the client gives up. */
module McpAnswers {
  import opened Outcome
  import opened McpSession

  // ---- Reopening -------------------------------------------------------------------------

  /** The gate turns away the handshakes of the first `n` requests, within the deadline. */
  predicate GatedUpTo(script: seq<Entry>, n: nat)
    requires n <= |script|
  {
    forall i :: 0 <= i < n ==> script[i].handshake.Gated? && !script[i].late
  }

  /** The handshake at `n` settles a reopening: the first the gate does not turn away, or the one
      it turns away past the deadline. */
  predicate Settles(script: seq<Entry>, n: nat) {
    n < |script| && GatedUpTo(script, n) && (script[n].handshake.Gated? ==> script[n].late)
  }

  /** The world once the handshake at `n` settled. */
  function SettledAt(w: World, n: nat): World
    requires n < |w.script|
  {
    var opens := w.script[n].handshake.Opens?;
    w.(script := w.script[n + 1..], late := w.script[n].late, schemas := false, toolsListed := false,
       session := if opens then Some(w.nextSession) else None, nextSession := if opens then w.nextSession + 1 else w.nextSession)
  }

  lemma {:induction false} SettlesBehind(script: seq<Entry>, n: nat)
    requires script != [] && script[0].handshake.Gated? && !script[0].late
    ensures n > 0 ==> (Settles(script, n) <==> Settles(script[1..], n - 1))
    ensures n > 0 && n <= |script| ==> (GatedUpTo(script, n) <==> GatedUpTo(script[1..], n - 1))
  {
    var rest := script[1..];
    assert forall i :: 0 <= i < |rest| ==> rest[i] == script[i + 1];
    if 0 < n <= |script| && GatedUpTo(rest, n - 1) {
      forall i | 0 <= i < n
        ensures script[i].handshake.Gated? && !script[i].late
      {
        if i > 0 {
          assert rest[i - 1] == script[i];
        }
      }
    }
  }

  /** A session is reopened exactly by the handshake that settles, on a session nobody had before. */
  lemma {:induction false} ReinitSettles(w: World, n: nat)
    requires Settles(w.script, n)
    ensures Reinit(w).w == SettledAt(w, n)
    ensures Reinit(w).r == match w.script[n].handshake
                           case Opens => Success(())
                           case Refused => Failure(Broken)
                           case Gated => Failure(Expired)
    decreases n
  {
    if n > 0 {
      var on := w.(session := None, schemas := false, toolsListed := false, script := w.script[1..], late := w.script[0].late);
      SettlesBehind(w.script, n);
      ReinitSettles(on, n - 1);
      assert w.script[1..][n..] == w.script[n + 1..];
    }
  }

  /** And where none does, the gate outlasts the script. */
  lemma {:induction false} ReinitUnsettled(w: World)
    requires forall n: nat :: !Settles(w.script, n)
    ensures GatedUpTo(w.script, |w.script|) && Reinit(w).r == Failure(Expired) && Reinit(w).w.script == []
    decreases |w.script|
  {
    if w.script != [] {
      assert !Settles(w.script, 0);
      var on := w.(session := None, schemas := false, toolsListed := false, script := w.script[1..], late := w.script[0].late);
      forall n: nat
        ensures !Settles(on.script, n)
      {
        SettlesBehind(w.script, n + 1);
        assert !Settles(w.script, n + 1);
      }
      ReinitUnsettled(on);
      SettlesBehind(w.script, |w.script|);
    }
  }

  /** The reopening on the script alone: it succeeds if and only if the first handshake the gate does
      not turn away opens and none before it was late, is broken if and only if that one refuses, and
      expires otherwise. */
  lemma {:induction false} ReinitIsExact(w: World)
    ensures Reinit(w).r.Success? <==> exists n: nat :: Settles(w.script, n) && w.script[n].handshake.Opens?
    ensures Reinit(w).r == Failure(Broken) <==> exists n: nat :: Settles(w.script, n) && w.script[n].handshake.Refused?
    ensures Reinit(w).r.Failure? && Reinit(w).r.error != Broken ==> Reinit(w).r == Failure(Expired)
  {
    hide Settles, Reinit;
    if n: nat :| Settles(w.script, n) {
      SettlesOnce(w.script, n, n);
      ReinitSettles(w, n);
      forall k: nat | Settles(w.script, k)
        ensures k == n
      {
        SettlesOnce(w.script, n, k);
      }
    } else {
      ReinitUnsettled(w);
    }
  }

  lemma SettlesOnce(script: seq<Entry>, n: nat, k: nat)
    requires Settles(script, n) && Settles(script, k)
    ensures n == k < |script|
  {
  }

  // ---- Giving up -------------------------------------------------------------------------

  /** The deadline has passed, or the server has gone silent. */
  predicate Over(w: World) { w.late || w.script == [] }

  lemma {:induction false} ReopeningExpires(w: World)
    ensures Reinit(w).r == Failure(Expired) ==> Over(Reinit(w).w)
    decreases |w.script|
  {
    if w.script != [] && w.script[0].handshake.Gated? && !w.script[0].late {
      ReopeningExpires(w.(session := None, schemas := false, toolsListed := false,
                          script := w.script[1..], late := w.script[0].late));
    }
  }

  lemma {:induction false} InvokeExpires(w: World, raiseOnError: bool)
    ensures Invoke(w, raiseOnError).r == Failure(Expired) ==> Over(Invoke(w, raiseOnError).w)
    decreases |w.script|
  {
    var called := CallOnSession(w, raiseOnError);
    if called.r == Failure(Terminated) && !called.w.late {
      ReopeningExpires(called.w);
      var again := Reinit(called.w);
      if again.r.Success? {
        InvokeExpires(again.w, raiseOnError);
      }
    }
  }

  lemma {:induction false} PollExpires(w: World)
    ensures PollReady(w).r == Failure(Expired) ==> Over(PollReady(w).w)
    decreases |w.script|
  {
    hide Invoke;
    InvokeExpires(w, false);
    var called := Invoke(w, false);
    if called.r.Success? && called.w.calls[called.r.value].Reloading() && !called.w.late {
      PollExpires(called.w);
    }
  }

  /** A call gives up waiting only past the deadline or once the server has gone silent. */
  lemma GivesUpOnlyLate(w: World, raiseOnError: bool, retryOnReloading: bool)
    ensures var d := CallTool(w, raiseOnError, retryOnReloading); d.r == Failure(Expired) ==> Over(d.w)
  {
    hide Invoke, PollReady;
    InvokeExpires(w, raiseOnError);
    PollExpires(w);
  }

  // ---- Getting through -------------------------------------------------------------------

  /** A request that fails for no reason but a retired session or the gate. */
  predicate Benign(e: Entry) { !e.late && !e.handshake.Refused? && !e.listFails && e.reaches && e.delivered }

  /** One that would not fail for these either. */
  predicate Calm(e: Entry) { Benign(e) && e.handshake.Opens? && !e.retiresBefore }

  ghost predicate BenignUpTo(script: seq<Entry>, n: nat)
    requires n <= |script|
  {
    forall i :: 0 <= i < n ==> Benign(script[i])
  }

  ghost predicate CalmFrom(script: seq<Entry>, n: nat, k: nat)
    requires n + k <= |script|
  {
    forall i :: n <= i < n + k ==> Calm(script[i])
  }

  /** The client holds a session; those retired are among the ones handed out. */
  ghost predicate Current(w: World) {
    && w.session.Some? && w.session.value < w.nextSession && Listed(w)
    && forall s :: s in w.retired ==> s < w.nextSession
  }

  predicate Live(w: World) { w.session.Some? && w.session.value !in w.retired }

  /** The call was answered by the entry before what is left of the script. */
  ghost predicate Answered(w: World, d: Done<nat>, raiseOnError: bool) {
    && |d.w.script| < |w.script|
    && var used := |w.script| - |d.w.script|; var call := w.script[used - 1].call;
    && d.w.script == w.script[used..] && d.w.calls == w.calls + [call] && Current(d.w) && d.w.toolsListed
    && d.w.late == w.script[used - 1].late
    && d.r == (if call.isError && raiseOnError then Failure(ToolFailed(|w.calls|)) else Success(|w.calls|))
  }

  /** The session was turned away at the `used`-th request. */
  ghost predicate TurnedAway(w: World, d: Done<nat>, used: nat) {
    && 0 < used <= |w.script| && d.r == Failure(Terminated) && !d.w.late && d.w.calls == w.calls && Current(d.w)
    && d.w.script == w.script[used..] && d.w.nextSession == w.nextSession
    && (w.script[used - 1].retiresBefore || !Live(w))
    && (used > 1 ==> w.script[0].retiresBefore == false && Live(w))
  }

  /** What one attempt comes to with nothing in its way but a retired session. */
  lemma AttemptOutcome(w: World, raiseOnError: bool)
    requires Current(w) && |w.script| >= 2 && Benign(w.script[0]) && Benign(w.script[1])
    ensures var d := CallOnSession(w, raiseOnError);
      if !Live(w) || w.script[0].retiresBefore then TurnedAway(w, d, 1)
      else if !w.toolsListed && w.script[1].retiresBefore then TurnedAway(w, d, 2)
      else Answered(w, d, raiseOnError) && |d.w.script| + (if w.toolsListed then 1 else 2) == |w.script|
  {
    assert w.script[1..][1..] == w.script[2..];
  }

  /** The first handshake the gate does not turn away, at the latest at `n`. */
  lemma {:induction false} OpensBy(script: seq<Entry>, n: nat) returns (j: nat)
    requires n < |script| && BenignUpTo(script, n) && Calm(script[n])
    ensures j <= n && Settles(script, j) && script[j].handshake.Opens?
    decreases n
  {
    if script[0].handshake.Opens? {
      j := 0;
    } else {
      assert Benign(script[0]);
      assert forall i :: 0 <= i < |script[1..]| ==> script[1..][i] == script[i + 1];
      j := OpensBy(script[1..], n - 1);
      SettlesBehind(script, j + 1);
      j := j + 1;
    }
  }

  /** From entry `n` on nothing is retired and the gate is open for as long as a call needs. */
  ghost predicate QuietFrom(script: seq<Entry>, n: nat, live: bool) {
    && n + 2 <= |script| && BenignUpTo(script, n)
    && if n == 0 then live && CalmFrom(script, 0, 2) else n + 3 <= |script| && CalmFrom(script, n, 3)
  }

  ghost predicate Quiet(w: World, n: nat) { Current(w) && QuietFrom(w.script, n, Live(w)) }

  lemma QuietBegins(w: World, n: nat)
    requires Quiet(w, n)
    ensures |w.script| >= 2 && Benign(w.script[0]) && Benign(w.script[1])
  {
  }

  lemma QuietBehind(script: seq<Entry>, n: nat, live: bool, k: nat)
    requires QuietFrom(script, n, live) && 0 < n && k <= n + 1
    ensures QuietFrom(script[k..], if k == n + 1 then 0 else n - k, true)
    ensures k <= n ==> BenignUpTo(script[k..], n - k) && n - k < |script[k..]| && Calm(script[k..][n - k])
  {
    hide Benign, Calm;
    assert forall i :: 0 <= i < |script[k..]| ==> script[k..][i] == script[k + i];
  }

  /** An attempt in the quiet, or before it. */
  lemma AttemptBefore(w: World, raiseOnError: bool, n: nat)
    requires Quiet(w, n)
    ensures var d := CallOnSession(w, raiseOnError); var used := |w.script| - |d.w.script|;
      && used <= 2
      && (if d.r == Failure(Terminated) then used <= n && TurnedAway(w, d, used) else Answered(w, d, raiseOnError))
  {
    AttemptOutcome(w, raiseOnError);
    hide CallOnSession;
  }

  /** A session turned away before the quiet begins is reopened at the latest when it does. */
  lemma {:induction false} ReopensInTime(w: World, d: Done<nat>, used: nat, n: nat) returns (m: nat)
    requires Quiet(w, n) && TurnedAway(w, d, used) && used <= n
    ensures var again := Reinit(d.w);
      && again.r.Success? && again.w.calls == w.calls && |again.w.script| < |w.script|
      && again.w.script == w.script[|w.script| - |again.w.script|..]
      && Quiet(again.w, m) && m + |w.script| - |again.w.script| <= if m == 0 then n + 1 else n
  {
    hide Reinit, QuietFrom, BenignUpTo, Calm, Settles;
    QuietBehind(w.script, n, Live(w), used);
    var j := OpensBy(w.script[used..], n - used);
    SettlesOnce(w.script[used..], j, j);
    ReinitSettles(d.w, j);
    QuietBehind(w.script, n, Live(w), used + j + 1);
    assert w.script[used..][j + 1..] == w.script[used + j + 1..];
    m := if used + j == n then 0 else n - used - j - 1;
  }

  lemma AnsweredBehind(w: World, again: World, d: Done<nat>, raiseOnError: bool)
    requires |again.script| <= |w.script| && again.script == w.script[|w.script| - |again.script|..] && again.calls == w.calls
    requires Answered(again, d, raiseOnError)
    ensures Answered(w, d, raiseOnError)
  {
    var k := |w.script| - |again.script|;
    var used := |again.script| - |d.w.script|;
    assert again.script[used..] == w.script[k + used..] && again.script[used - 1] == w.script[k + used - 1];
  }

  /** Whatever a server retires and gates before, once three requests in a row meet no retirement and
      no gate the call has been answered: by the entry that handled it, the one call there was. */
  lemma {:induction false} InvokeAnswers(w: World, raiseOnError: bool, n: nat)
    requires Quiet(w, n)
    ensures Answered(w, Invoke(w, raiseOnError), raiseOnError)
    ensures |w.script| - |Invoke(w, raiseOnError).w.script| <= if n == 0 then 2 else n + 3
    decreases |w.script|
  {
    hide CallOnSession, Answered, Quiet, Reinit, TurnedAway, Invoke;
    AttemptBefore(w, raiseOnError, n);
    InvokeGoesOn(w, raiseOnError);
    var d := CallOnSession(w, raiseOnError);
    if d.r == Failure(Terminated) {
      NotLate(w, d, |w.script| - |d.w.script|);
      var m := ReopensInTime(w, d, |w.script| - |d.w.script|, n);
      var again := Reinit(d.w).w;
      InvokeAnswers(again, raiseOnError, m);
      AnsweredBehind(w, again, Invoke(again, raiseOnError), raiseOnError);
    }
  }

  lemma {:induction false} InvokeGoesOn(w: World, raiseOnError: bool)
    ensures var d := CallOnSession(w, raiseOnError);
      Invoke(w, raiseOnError) ==
        if d.r == Failure(Terminated) && !d.w.late && Reinit(d.w).r.Success? then Invoke(Reinit(d.w).w, raiseOnError)
        else if d.r == Failure(Terminated) && !d.w.late then Done(Reinit(d.w).w, Failure(Reinit(d.w).r.error))
        else d
  {
    hide CallOnSession, Reinit;
  }

  lemma NotLate(w: World, d: Done<nat>, used: nat)
    requires TurnedAway(w, d, used)
    ensures !d.w.late
  {
  }

  // ---- Listings and the reload poll ------------------------------------------------------

  lemma ListingBefore(w: World, n: nat)
    requires Quiet(w, n)
    ensures var d := ListOnSession(w);
      if d.r == Failure(Terminated) then n > 0 && TurnedAway(w, Done(d.w, Failure(Terminated)), 1) else d.r.Success?
  {
    QuietBegins(w, n);
  }

  /** So has a listing. */
  lemma {:induction false} ListingAnswers(w: World, n: nat)
    requires Quiet(w, n)
    ensures ListTools(w).r.Success?
    decreases |w.script|
  {
    hide ListOnSession, Quiet, Reinit, TurnedAway;
    ListingBefore(w, n);
    var d := ListOnSession(w);
    if d.r == Failure(Terminated) {
      NotLate(w, Done(d.w, Failure(Terminated)), 1);
      var m := ReopensInTime(w, Done(d.w, Failure(Terminated)), 1, n);
      ListingAnswers(Reinit(d.w).w, m);
    }
  }

  /** Four requests in a row that meet no retirement and no gate, and no call of theirs that reads as
      the gate's rejection. */
  ghost predicate Ready(w: World, n: nat) {
    && Current(w) && n + 4 <= |w.script| && BenignUpTo(w.script, n) && CalmFrom(w.script, n, 4)
    && forall i :: n <= i < n + 4 ==> !w.script[i].call.Reloading()
  }

  lemma ReadyIsQuiet(w: World, n: nat)
    requires Ready(w, n)
    ensures Quiet(w, if n == 0 && !Live(w) then 1 else n)
  {
  }

  lemma ReadyBehind(w: World, d: Done<nat>, n: nat)
    requires Ready(w, n) && Answered(w, d, false) && |w.script| - |d.w.script| <= n + 4
    requires d.w.calls[|w.calls|].Reloading()
    ensures |w.script| - |d.w.script| <= n && Ready(d.w, n - (|w.script| - |d.w.script|)) && !d.w.late
  {
    var used := |w.script| - |d.w.script|;
    assert forall i :: 0 <= i < |d.w.script| ==> d.w.script[i] == w.script[used + i];
    hide Calm;
  }

  /** And a call polled past the reload gate comes back. */
  lemma {:induction false} PollAnswers(w: World, n: nat)
    requires Ready(w, n)
    ensures PollReady(w).r.Success?
    decreases |w.script|
  {
    hide Invoke, Ready, Quiet;
    ReadyIsQuiet(w, n);
    InvokeAnswers(w, false, if n == 0 && !Live(w) then 1 else n);
    var called := Invoke(w, false);
    if called.w.calls[|w.calls|].Reloading() {
      ReadyBehind(w, called, n);
      PollAnswers(called.w, n - (|w.script| - |called.w.script|));
    }
  }

  /** `call_tool` with the reload retry returns a result, or raises the tool's own error. */
  lemma CallAnswers(w: World, raiseOnError: bool, n: nat)
    requires Ready(w, n)
    ensures var d := CallTool(w, raiseOnError, true);
      d.r.Success? || (raiseOnError && d.r.error.ToolFailed?)
  {
    hide PollReady, Ready;
    PollAnswers(w, n);
  }

  // ---- What an ending says ---------------------------------------------------------------

  /** What is left of the script is its end. */
  predicate Behind(w: World, d: World) { |d.script| <= |w.script| && d.script == w.script[|w.script| - |d.script|..] }

  /** The request before what is left. */
  function Last(w: World, d: World): Entry
    requires |d.script| < |w.script|
  {
    w.script[|w.script| - |d.script| - 1]
  }

  /** The request ran the latest call, and its reply came. */
  predicate Handled(e: Entry, d: World) { e.reaches && e.delivered && d.calls != [] && d.calls[|d.calls| - 1] == e.call }

  /** What must have happened for a call, or a listing, to fail with this error. */
  predicate Accounts(w: World, d: World, error: Error) {
    Behind(w, d) &&
    match error
    case NotConnected => w.session.None?
    case NoReply => d.script == [] || (|d.script| < |w.script| && Last(w, d).reaches && !Last(w, d).delivered)
    case Terminated => |d.script| < |w.script| && Last(w, d).late
    case Broken => |d.script| < |w.script| && (Last(w, d).handshake.Refused? || Last(w, d).listFails || !Last(w, d).reaches)
    case ToolFailed(run) => |d.script| < |w.script| && Handled(Last(w, d), d) && Last(w, d).call.isError && |d.calls| == run + 1
    case Expired => Over(d)
  }

  /** A result is the reply to the last request, or to the one before a listing that came through. */
  predicate Replied(w: World, d: World, run: nat) {
    && Behind(w, d) && |d.calls| == run + 1 && |d.script| < |w.script| && d.late == Last(w, d).late
    && (Handled(Last(w, d), d)
        || (|w.script| - |d.script| >= 2 && !Last(w, d).listFails
            && var e := w.script[|w.script| - |d.script| - 2]; Handled(e, d) && !e.call.isError))
  }

  predicate Explained(w: World, d: Done<nat>) {
    if d.r.Success? then Replied(w, d.w, d.r.value) else Accounts(w, d.w, d.r.error)
  }

  /** A request was turned away for its session, which the client had. */
  predicate Away(w: World, d: World) { Behind(w, d) && |d.script| < |w.script| && d.late == Last(w, d).late && d.session.Some? }

  /** A listing comes through, is turned away, or fails for a reason. */
  predicate ListingExplained(w: World, d: Done<()>) {
    if d.r.Success? then Behind(w, d.w) && |d.w.script| < |w.script| && !Last(w, d.w).listFails && d.w.late == Last(w, d.w).late
    else if d.r == Failure(Terminated) then Away(w, d.w)
    else Accounts(w, d.w, d.r.error) && !d.r.error.ToolFailed?
  }

  predicate CallExplained(w: World, d: Done<nat>) {
    if d.r == Failure(Terminated) then Away(w, d.w) else Explained(w, d)
  }

  /** A request takes the script's first entry, or there is none to take. */
  lemma SendTakes(w: World)
    ensures var d := Send(w);
      && (d.r.Success? || d.r == Failure(Terminated) ==>
            w.session.Some? && |w.script| > 0 && d.w.script == w.script[1..] && d.w.late == w.script[0].late)
      && (d.r.Success? ==> d.r.value == w.script[0])
      && (d.r.Failure? ==> d.r == Failure(Terminated) || (d.w == w && d.r == Failure(if w.session.None? then NotConnected else NoReply)
                                                          && (w.session.Some? ==> w.script == [])))
  {
  }

  /** The rest of a rest. */
  lemma StillBehind(w: World, on: World, d: World)
    requires Behind(w, on) && Behind(on, d)
    ensures Behind(w, d) && (|d.script| < |on.script| ==> Last(w, d) == Last(on, d))
    ensures |d.script| == |on.script| < |w.script| ==> Last(w, d) == Last(w, on)
  {
  }

  lemma SdkListExplained(w: World)
    ensures ListingExplained(w, SdkList(w))
    ensures SdkList(w).r.Success? ==> |SdkList(w).w.script| + 1 == |w.script|
  {
    SendTakes(w);
    hide Send;
  }

  /** What follows the run of a call on a session: its reply, or the listing that checks it. */
  lemma SdkCallExplained(w: World, raiseOnError: bool)
    ensures CallExplained(w, SdkCall(w, raiseOnError))
    ensures SdkCall(w, raiseOnError).r.Success? ==> SdkCall(w, raiseOnError).w.session.Some?
  {
    SendTakes(w);
    var sent := Send(w);
    if sent.r.Success? && sent.r.value.reaches {
      var entry := sent.r.value;
      var ran := sent.w.(calls := w.calls + [entry.call],
                         retired := if entry.retiresDuring then sent.w.retired + {w.session.value} else sent.w.retired);
      if entry.delivered && !entry.call.isError && !ran.schemas {
        SdkListExplained(ran);
        StillBehind(w, ran, SdkList(ran).w);
        CheckedCall(w, ran, SdkList(ran));
      }
    }
    hide SdkList, Send;
  }

  lemma CheckedCall(w: World, ran: World, listed: Done<()>)
    requires |w.script| > 0 && ran.script == w.script[1..] && w.session.Some? && ran.session == w.session
    requires Handled(w.script[0], ran) && !w.script[0].call.isError
    requires |ran.calls| == |w.calls| + 1 && listed.w.calls == ran.calls && listed.w.session == ran.session
    requires ListingExplained(ran, listed) && (listed.r.Success? ==> |listed.w.script| + 1 == |ran.script|)
    ensures CallExplained(w, Done(listed.w, if listed.r.Success? then Success(|w.calls|) else Failure(listed.r.error)))
  {
    StillBehind(w, ran, listed.w);
  }

  /** One attempt, with the listing that may come first. */
  lemma AttemptExplained(w: World, raiseOnError: bool)
    ensures CallExplained(w, CallOnSession(w, raiseOnError))
    ensures CallOnSession(w, raiseOnError).r.Success? ==> CallOnSession(w, raiseOnError).w.session.Some?
  {
    if w.toolsListed {
      SdkCallExplained(w, raiseOnError);
    } else {
      SdkListExplained(w);
      var listed := ListOnSession(w);
      if listed.r.Success? {
        SdkCallExplained(listed.w, raiseOnError);
        FurtherOn(w, listed.w, SdkCall(listed.w, raiseOnError));
      }
    }
    hide SdkCall, SdkList;
  }

  /** An explanation from a later world is one from here. */
  lemma FurtherOn(w: World, on: World, d: Done<nat>)
    requires Behind(w, on) && |on.script| < |w.script| && (w.session.Some? || on.session.Some?) && CallExplained(on, d)
    requires on.session.Some?
    ensures CallExplained(w, d)
  {
    StillBehind(w, on, d.w);
  }

  /** A reopening ends by a handshake, or with the script. */
  lemma {:induction false} ReopeningExplained(w: World)
    ensures var d := Reinit(w);
      if d.r.Success? then Behind(w, d.w) && |d.w.script| < |w.script| && d.w.session.Some? else Accounts(w, d.w, d.r.error)
  {
    hide Reinit, Settles, GatedUpTo;
    if n: nat :| Settles(w.script, n) {
      SettlesOnce(w.script, n, n);
      ReinitSettles(w, n);
      ReopeningExpires(w);
    } else {
      ReinitUnsettled(w);
    }
  }

  /** Whatever the server does, an answer is the reply to the one call it handled last, and an error has
      its reason in the last request: a call past its deadline turned away for its session, a refused
      handshake, a failed listing or a lost request, a reply that never came. */
  lemma {:induction false} InvokeExplained(w: World, raiseOnError: bool)
    ensures Explained(w, Invoke(w, raiseOnError))
    ensures Invoke(w, raiseOnError).r.Success? ==> Invoke(w, raiseOnError).w.session.Some?
    decreases |w.script|
  {
    hide CallOnSession, Reinit, Invoke, Accounts, Replied;
    AttemptExplained(w, raiseOnError);
    InvokeGoesOn(w, raiseOnError);
    var d := CallOnSession(w, raiseOnError);
    if d.r == Failure(Terminated) {
      ReopeningExplained(d.w);
      var again := Reinit(d.w);
      if d.w.late {
        TurnedAwayLate(w, d);
      } else if again.r.Success? {
        InvokeExplained(again.w, raiseOnError);
        StillBehind(w, d.w, again.w);
        ExplainedFurtherOn(w, again.w, Invoke(again.w, raiseOnError));
      } else {
        ExplainedFurtherOn(w, d.w, Done(again.w, Failure(again.r.error)));
      }
    }
  }

  lemma TurnedAwayLate(w: World, d: Done<nat>)
    requires Away(w, d.w) && d.w.late && d.r == Failure(Terminated)
    ensures Explained(w, d)
  {
  }

  lemma ExplainedFurtherOn(w: World, on: World, d: Done<nat>)
    requires Behind(w, on) && |on.script| < |w.script| && on.session.Some? && Explained(on, d)
    ensures Explained(w, d)
  {
    StillBehind(w, on, d.w);
  }

  lemma {:induction false} PollExplained(w: World)
    ensures Explained(w, PollReady(w))
    decreases |w.script|
  {
    hide Invoke, Accounts, Replied;
    InvokeExplained(w, false);
    var called := Invoke(w, false);
    if called.r.Success? && called.w.calls[called.r.value].Reloading() {
      ReplyIsBehind(w, called);
      if !called.w.late {
        PollExplained(called.w);
        ExplainedFurtherOn(w, called.w, PollReady(called.w));
      } else {
        PolledOut(w, called);
      }
    }
  }

  lemma ReplyIsBehind(w: World, d: Done<nat>)
    requires Explained(w, d) && d.r.Success?
    ensures Behind(w, d.w)
  {
  }

  lemma PolledOut(w: World, d: Done<nat>)
    requires Behind(w, d.w) && d.w.late
    ensures Explained(w, Done(d.w, Failure(Expired)))
  {
  }

  /** The same of every `call_tool`. */
  lemma CallExplains(w: World, raiseOnError: bool, retryOnReloading: bool)
    ensures Explained(w, CallTool(w, raiseOnError, retryOnReloading))
  {
    InvokeExplained(w, raiseOnError);
    PollExplained(w);
    hide Invoke, PollReady;
  }

  /** And of a listing, which comes through only by a request that did not fail. */
  lemma {:induction false} ListingExplains(w: World)
    ensures var d := ListTools(w); ListingExplained(w, d) && (d.r == Failure(Terminated) ==> Last(w, d.w).late)
    decreases |w.script|
  {
    hide ListOnSession, Reinit, Accounts;
    ListOnSessionExplained(w);
    var d := ListOnSession(w);
    if d.r == Failure(Terminated) && !d.w.late {
      ReopeningExplained(d.w);
      var again := Reinit(d.w);
      if again.r.Success? {
        ListingExplains(again.w);
        StillBehind(w, d.w, again.w);
        ListingFurtherOn(w, again.w, ListTools(again.w));
      } else {
        ListingFurtherOn(w, d.w, again);
      }
    }
  }

  lemma ListOnSessionExplained(w: World)
    ensures ListingExplained(w, ListOnSession(w))
  {
    SdkListExplained(w);
    hide SdkList, Accounts;
  }

  lemma ListingFurtherOn(w: World, on: World, d: Done<()>)
    requires Behind(w, on) && |on.script| < |w.script| && on.session.Some? && ListingExplained(on, d)
    ensures ListingExplained(w, d) && (d.r == Failure(Terminated) ==> Last(w, d.w) == Last(on, d.w))
  {
    StillBehind(w, on, d.w);
  }

  // ---- The deadline ----------------------------------------------------------------------

  /** From request `k` on the deadline has passed. */
  predicate PastFrom(script: seq<Entry>, k: nat) { k < |script| && forall i :: k <= i < |script| ==> script[i].late }

  lemma PastBehind(w: World, d: World, k: nat)
    requires Behind(w, d) && PastFrom(w.script, k)
    ensures var used := |w.script| - |d.script|;
      && (k < used ==> Last(w, d).late)
      && (used < |w.script| ==> PastFrom(d.script, if k <= used then 0 else k - used))
  {
  }

  /** An attempt is two requests at most. */
  lemma AttemptIsShort(w: World, raiseOnError: bool)
    ensures |w.script| - |CallOnSession(w, raiseOnError).w.script| <= 2
  {
  }

  /** No handshake past the deadline is waited out. */
  lemma {:induction false} ReopeningStops(w: World, k: nat)
    requires PastFrom(w.script, k)
    ensures |w.script| - |Reinit(w).w.script| <= k + 1
    decreases k
  {
    if w.script[0].handshake.Gated? && !w.script[0].late {
      ReopeningStops(w.(session := None, schemas := false, toolsListed := false,
                        script := w.script[1..], late := w.script[0].late), k - 1);
    }
  }

  lemma {:induction false} InvokeStops(w: World, raiseOnError: bool, k: nat)
    requires PastFrom(w.script, k)
    ensures |w.script| - |Invoke(w, raiseOnError).w.script| <= if k == 0 then 2 else k + 3
    decreases |w.script|
  {
    hide CallOnSession, Reinit, Invoke, Accounts, Replied, Behind, PastFrom;
    AttemptExplained(w, raiseOnError);
    AttemptIsShort(w, raiseOnError);
    InvokeGoesOn(w, raiseOnError);
    var d := CallOnSession(w, raiseOnError);
    if d.r == Failure(Terminated) && !d.w.late {
      PastBehind(w, d.w, k);
      var used := |w.script| - |d.w.script|;
      ReopeningExplained(d.w);
      var again := Reinit(d.w);
      if used < |w.script| {
        ReopeningStops(d.w, k - used);
        if again.r.Success? && again.w.script != [] {
          StillBehind(w, d.w, again.w);
          PastBehind(w, again.w, k);
          var on := |w.script| - |again.w.script|;
          InvokeStops(again.w, raiseOnError, if k <= on then 0 else k - on);
        }
      }
      if again.r.Success? && again.w.script == [] {
        AttemptIsShort(again.w, raiseOnError);
      }
    }
  }

  lemma {:induction false} PollStops(w: World, k: nat)
    requires PastFrom(w.script, k)
    ensures |w.script| - |PollReady(w).w.script| <= k + 3
    decreases |w.script|
  {
    hide Invoke, Behind, PastFrom, Handled;
    InvokeStops(w, false, k);
    InvokeExplained(w, false);
    var called := Invoke(w, false);
    if called.r.Success? && called.w.calls[called.r.value].Reloading() && !called.w.late {
      PastBehind(w, called.w, k);
      var used := |w.script| - |called.w.script|;
      if called.w.script != [] {
        PollStops(called.w, k - used);
      }
    }
  }

  /** Once the deadline has passed at one request at most two more are sent: those of an attempt on a
      session whose handshake was that request. */
  lemma StopsAtTheDeadline(w: World, raiseOnError: bool, retryOnReloading: bool, k: nat)
    requires PastFrom(w.script, k)
    ensures |w.script| - |CallTool(w, raiseOnError, retryOnReloading).w.script| <= k + 3
  {
    hide Invoke, PollReady, PastFrom;
    InvokeStops(w, raiseOnError, k);
    PollStops(w, k);
  }

  /** A listing is one request after its handshake. */
  lemma {:induction false} ListingStops(w: World, k: nat)
    requires PastFrom(w.script, k)
    ensures |w.script| - |ListTools(w).w.script| <= if k == 0 then 1 else k + 2
    decreases |w.script|
  {
    hide Reinit, Accounts, Behind, PastFrom, ListOnSession;
    ListOnSessionExplained(w);
    ListingIsOne(w);
    var d := ListOnSession(w);
    if d.r == Failure(Terminated) && !d.w.late {
      PastBehind(w, d.w, k);
      ReopeningExplained(d.w);
      var again := Reinit(d.w);
      if d.w.script != [] {
        ReopeningStops(d.w, k - 1);
        if again.r.Success? && again.w.script != [] {
          StillBehind(w, d.w, again.w);
          PastBehind(w, again.w, k);
          var on := |w.script| - |again.w.script|;
          ListingStops(again.w, if k <= on then 0 else k - on);
        }
      }
    }
  }

  lemma ListingIsOne(w: World)
    ensures |w.script| - |ListOnSession(w).w.script| <= 1
  {
  }
}
