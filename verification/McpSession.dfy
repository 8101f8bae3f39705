/** The session-recovering client of e2e/src/tai42_e2e/mcp.py against a server that retires its
    sessions whenever it likes.

    The server's behaviour is a script, one entry for each request that reaches it; where it
    ends no reply comes any more.  A retired session rejects a request on arrival. */
module McpSession {
  import opened Outcome

  /** What the server made of a call: `gated` when the reload gate turned it away before the tool
      ran, `marked` when its text holds the gate's marker. */
  datatype Call = Call(gated: bool, isError: bool, marked: bool) {
    /** `_is_reloading`: what the client takes for the gate. */
    predicate Reloading() { isError && marked }
  }

  datatype Handshake = Opens | Gated | Refused

  /** One request: the session may be retired before it arrives and while it is served; `late`
      is whether the running deadline has passed once it is over. */
  datatype Entry = Entry(retiresBefore: bool, retiresDuring: bool, late: bool, handshake: Handshake, listFails: bool,
                         reaches: bool, call: Call, delivered: bool)

  datatype Error = Terminated | NotConnected | NoReply | Broken | ToolFailed(run: nat) | Expired

  /** The server, and the SDK session the client talks through: `schemas` once that session has
      listed the tools. */
  datatype World = World(script: seq<Entry>, nextSession: nat, retired: set<nat>, calls: seq<Call>, late: bool,
                         session: Option<nat>, schemas: bool, toolsListed: bool)

  datatype Done<+T> = Done(w: World, r: Result<T, Error>)

  // ---- Requests --------------------------------------------------------------------------

  /** A request on the current session: the entry that serves it, or why none does. */
  function Send(w: World): (d: Done<Entry>)
    ensures d.w.calls == w.calls && |d.w.script| <= |w.script|
    ensures d.w == w.(script := d.w.script, retired := d.w.retired, late := d.w.late)
    ensures d.r.Success? || d.r == Failure(Terminated) ==> |d.w.script| < |w.script|
    ensures d.r.Success? ==> w.session.Some? && d.w.session.value !in d.w.retired
  {
    if w.session.None? then Done(w, Failure(NotConnected))
    else if w.script == [] then Done(w, Failure(NoReply))
    else
      var e := w.script[0];
      var on := w.(script := w.script[1..], late := e.late,
                   retired := if e.retiresBefore then w.retired + {w.session.value} else w.retired);
      if on.session.value in on.retired then Done(on, Failure(Terminated)) else Done(on, Success(e))
  }

  /** `tools/list`, which fills the session's schemas. */
  function SdkList(w: World): (d: Done<()>)
    ensures d.w == w.(script := d.w.script, retired := d.w.retired, late := d.w.late, schemas := d.w.schemas)
    ensures |d.w.script| <= |w.script|
    ensures d.r == Failure(Terminated) ==> |d.w.script| < |w.script|
    ensures d.r.Success? ==> d.w.schemas
    ensures d.r.Failure? ==> d.w.schemas == w.schemas
  {
    var sent := Send(w);
    match sent.r
    case Failure(e) => Done(sent.w, Failure(e))
    case Success(entry) =>
      if entry.listFails then Done(sent.w, Failure(Broken)) else Done(sent.w.(schemas := true), Success(()))
  }

  /** `tools/call`: the result is the number of the call it is the reply to.  A delivered result
      is validated, which lists the tools first where the session has not. */
  function SdkCall(w: World, raiseOnError: bool): (d: Done<nat>)
    ensures |d.w.script| <= |w.script|
    ensures d.r.Success? || d.r == Failure(Terminated) ==> |d.w.script| < |w.script|
    ensures d.r.Success? ==> d.r.value < |d.w.calls|
  {
    var sent := Send(w);
    match sent.r
    case Failure(e) => Done(sent.w, Failure(e))
    case Success(entry) =>
      if !entry.reaches then Done(sent.w, Failure(Broken)) else
      var run := |w.calls|;
      var ran := sent.w.(calls := w.calls + [entry.call],
                         retired := if entry.retiresDuring then sent.w.retired + {w.session.value} else sent.w.retired);
      if !entry.delivered then Done(ran, Failure(NoReply))
      else if entry.call.isError then Done(ran, if raiseOnError then Failure(ToolFailed(run)) else Success(run))
      else if ran.schemas then Done(ran, Success(run))
      else
        var listed := SdkList(ran);
        Done(listed.w, if listed.r.Success? then Success(run) else Failure(listed.r.error))
  }

  // ---- The client ------------------------------------------------------------------------

  /** `_list_on_session`. */
  function ListOnSession(w: World): (d: Done<()>)
    ensures |d.w.script| <= |w.script| && d.w.calls == w.calls
    ensures d.r == Failure(Terminated) ==> |d.w.script| < |w.script|
    ensures Listed(w) ==> Listed(d.w)
    ensures d.r.Success? ==> d.w.toolsListed && d.w.schemas
  {
    var listed := SdkList(w);
    if listed.r.Success? then Done(listed.w.(toolsListed := true), Success(())) else listed
  }

  /** The inner `_call` of `call_tool`. */
  function CallOnSession(w: World, raiseOnError: bool): (d: Done<nat>)
    ensures |d.w.script| <= |w.script|
    ensures d.r.Success? || d.r == Failure(Terminated) ==> |d.w.script| < |w.script|
    ensures d.r.Success? ==> d.r.value < |d.w.calls|
  {
    if w.toolsListed then SdkCall(w, raiseOnError) else
    var listed := ListOnSession(w);
    if listed.r.Failure? then Done(listed.w, Failure(listed.r.error)) else SdkCall(listed.w, raiseOnError)
  }

  /** `_reinit`: a fresh client for every attempt, past the gate's rejections. */
  function Reinit(w: World): (d: Done<()>)
    ensures |d.w.script| <= |w.script| && d.w.calls == w.calls && w.nextSession <= d.w.nextSession
    ensures !d.w.toolsListed && (d.r.Failure? ==> d.r.error in {Broken, Expired})
    ensures d.r.Success? ==> d.w.session.Some? && w.nextSession <= d.w.session.value < d.w.nextSession
    decreases |w.script|
  {
    var reset := w.(session := None, schemas := false, toolsListed := false);
    if w.script == [] then Done(reset, Failure(Expired)) else
    var on := reset.(script := w.script[1..], late := w.script[0].late);
    match w.script[0].handshake
    case Opens => Done(on.(session := Some(w.nextSession), nextSession := w.nextSession + 1), Success(()))
    case Refused => Done(on, Failure(Broken))
    case Gated => if on.late then Done(on, Failure(Expired)) else Reinit(on)
  }

  /** `_with_session_reinit` around a call. */
  function Invoke(w: World, raiseOnError: bool): (d: Done<nat>)
    ensures d.r.Success? ==> |d.w.script| < |w.script| && d.r.value < |d.w.calls|
    decreases |w.script|
  {
    var called := CallOnSession(w, raiseOnError);
    if called.r != Failure(Terminated) || called.w.late then called else
    var again := Reinit(called.w);
    if again.r.Failure? then Done(again.w, Failure(again.r.error)) else Invoke(again.w, raiseOnError)
  }

  /** `_with_session_reinit` around a listing: `list_tools`. */
  function ListTools(w: World): Done<()>
    decreases |w.script|
  {
    var listed := ListOnSession(w);
    if listed.r != Failure(Terminated) || listed.w.late then listed else
    var again := Reinit(listed.w);
    if again.r.Failure? then again else ListTools(again.w)
  }

  /** The poll of `call_tool` with `retry_on_reloading`. */
  function PollReady(w: World): (d: Done<nat>)
    ensures d.r.Success? ==> d.r.value < |d.w.calls|
    decreases |w.script|
  {
    var called := Invoke(w, false);
    if called.r.Failure? || !called.w.calls[called.r.value].Reloading() then called
    else if called.w.late then Done(called.w, Failure(Expired))
    else PollReady(called.w)
  }

  function CallTool(w: World, raiseOnError: bool, retryOnReloading: bool): Done<nat> {
    if !retryOnReloading then Invoke(w, raiseOnError) else
    var ready := PollReady(w);
    if ready.r.Success? && ready.w.calls[ready.r.value].isError && raiseOnError
    then Done(ready.w, Failure(ToolFailed(ready.r.value))) else ready
  }

  // ---- At most once ----------------------------------------------------------------------

  /** The client's own record of the listing is never ahead of the session's. */
  predicate Listed(w: World) { w.toolsListed ==> w.schemas }

  predicate Extends(before: World, w: World) {
    |before.calls| <= |w.calls| && w.calls[..|before.calls|] == before.calls
  }

  /** What one outcome says the server did: a returned or raised result is the reply to the one
      call it handled; any error but a reply that never came means it handled none. */
  predicate OnceAtMost(before: World, d: Done<nat>, raiseOnError: bool) {
    && Extends(before, d.w) && |d.w.calls| <= |before.calls| + 1 && Listed(d.w)
    && match d.r
       case Success(run) =>
         run == |before.calls| && |d.w.calls| == run + 1 && !(raiseOnError && d.w.calls[run].isError)
       case Failure(ToolFailed(run)) => run == |before.calls| && |d.w.calls| == run + 1 && raiseOnError && d.w.calls[run].isError
       case Failure(NoReply) => true
       case Failure(_) => d.w.calls == before.calls
  }

  /** On a session that has listed the reply to a call brings no further request. */
  lemma ListedCallRunsOnce(w: World, raiseOnError: bool)
    requires w.schemas
    ensures OnceAtMost(w, SdkCall(w, raiseOnError), raiseOnError)
  {
    hide SdkList;
  }

  lemma SessionCallRunsOnce(w: World, raiseOnError: bool)
    requires Listed(w)
    ensures OnceAtMost(w, CallOnSession(w, raiseOnError), raiseOnError)
  {
    hide SdkCall, SdkList, OnceAtMost;
    if w.toolsListed {
      ListedCallRunsOnce(w, raiseOnError);
    } else {
      var listed := ListOnSession(w);
      ListingCallsNothing(w, raiseOnError);
      if listed.r.Success? {
        ListedCallRunsOnce(listed.w, raiseOnError);
        SameCallsBefore(w, listed.w, SdkCall(listed.w, raiseOnError), raiseOnError);
      }
    }
  }

  lemma ListingCallsNothing(w: World, raiseOnError: bool)
    requires Listed(w)
    ensures var listed := ListOnSession(w);
      listed.r.Failure? ==> OnceAtMost(w, Done(listed.w, Failure(listed.r.error)), raiseOnError)
  {
  }

  lemma SameCallsBefore(v: World, w: World, d: Done<nat>, raiseOnError: bool)
    requires OnceAtMost(w, d, raiseOnError) && v.calls == w.calls
    ensures OnceAtMost(v, d, raiseOnError)
  {
  }

  /** One `call_tool` without the reload retry, whatever the server retires and when: the tool is
      called at most once, exactly once if a result comes back, and that is its result. */
  lemma {:induction false} InvokeCallsAtMostOnce(w: World, raiseOnError: bool)
    requires Listed(w)
    ensures OnceAtMost(w, Invoke(w, raiseOnError), raiseOnError)
    ensures Invoke(w, raiseOnError).r == Failure(Terminated) ==> Invoke(w, raiseOnError).w.late
    decreases |w.script|
  {
    hide CallOnSession, Reinit;
    SessionCallRunsOnce(w, raiseOnError);
    var called := CallOnSession(w, raiseOnError);
    if called.r == Failure(Terminated) && !called.w.late {
      var again := Reinit(called.w);
      if again.r.Success? {
        InvokeCallsAtMostOnce(again.w, raiseOnError);
        SameCallsBefore(w, again.w, Invoke(again.w, raiseOnError), raiseOnError);
      }
    }
  }

  const CALM := Entry(false, false, false, Opens, false, true, Call(false, false, false), true)

  /** Were a session to call before it lists, the listing after the reply could be the request a
      retired session rejects, and the call would run again: the listing first is what counts. */
  lemma UnlistedRunsTwice()
    ensures var w := World([CALM.(retiresDuring := true), CALM, CALM, CALM, CALM, CALM], 1, {}, [], false, Some(0), false, true);
      !Listed(w) && Invoke(w, false).r == Success(1) && |Invoke(w, false).w.calls| == 2
  {
  }

  // ---- Past the reload gate --------------------------------------------------------------

  /** What a polled call leaves: every call but the last was taken for the gate's rejection; a
      result that comes back, or is raised, is the last call's and was not. */
  predicate PolledOnce(before: World, d: Done<nat>, raiseOnError: bool) {
    && Extends(before, d.w) && Listed(d.w)
    && (forall i :: |before.calls| <= i < |d.w.calls| - 1 ==> d.w.calls[i].Reloading())
    && match d.r
       case Success(run) =>
         |before.calls| <= run == |d.w.calls| - 1 && !d.w.calls[run].Reloading() && !(raiseOnError && d.w.calls[run].isError)
       case Failure(ToolFailed(run)) =>
         |before.calls| <= run == |d.w.calls| - 1 && raiseOnError && d.w.calls[run].isError && !d.w.calls[run].Reloading()
       case Failure(_) => true
  }

  lemma PolledFurther(before: World, once: World, d: Done<nat>)
    requires Extends(before, once) && |once.calls| == |before.calls| + 1 && once.calls[|before.calls|].Reloading()
    requires PolledOnce(once, d, false)
    ensures PolledOnce(before, d, false)
  {
    assert d.w.calls[..|before.calls|] == d.w.calls[..|once.calls|][..|before.calls|];
    assert d.w.calls[|before.calls|] == d.w.calls[..|once.calls|][|before.calls|];
  }

  lemma {:induction false} PollCallsUntilReady(w: World)
    requires Listed(w)
    ensures PolledOnce(w, PollReady(w), false)
    decreases |w.script|
  {
    hide Invoke;
    InvokeCallsAtMostOnce(w, false);
    var called := Invoke(w, false);
    if called.r.Success? && called.w.calls[called.r.value].Reloading() && !called.w.late {
      PollCallsUntilReady(called.w);
      PolledFurther(w, called.w, PollReady(called.w));
    }
  }

  /** `call_tool`, with the reload retry or without: without it the server handles one call at
      most; with it every call but the last is one the client took for a rejection by the gate.
      The result is the last call's, raised when it is an error and errors raise. */
  lemma CallToolOutcome(w: World, raiseOnError: bool, retryOnReloading: bool)
    requires Listed(w)
    ensures var d := CallTool(w, raiseOnError, retryOnReloading);
      if retryOnReloading then PolledOnce(w, d, raiseOnError) else OnceAtMost(w, d, raiseOnError)
  {
    hide Invoke, PollReady;
    if retryOnReloading {
      PollCallsUntilReady(w);
    } else {
      InvokeCallsAtMostOnce(w, raiseOnError);
    }
  }

  /** When only the gate writes its marker into an error, the tool itself runs at most once, the
      reload retry included. */
  lemma GateRejectionsRunNothing(w: World, raiseOnError: bool, retryOnReloading: bool)
    requires Listed(w)
    requires var d := CallTool(w, raiseOnError, retryOnReloading);
      forall i :: |w.calls| <= i < |d.w.calls| ==> (d.w.calls[i].Reloading() ==> d.w.calls[i].gated)
    ensures var d := CallTool(w, raiseOnError, retryOnReloading);
      forall i :: |w.calls| <= i < |d.w.calls| - 1 ==> d.w.calls[i].gated
  {
    hide CallTool;
    CallToolOutcome(w, raiseOnError, retryOnReloading);
  }

  /** A tool whose own error holds the marker is run again. */
  lemma MarkedErrorRunsTwice()
    ensures var marked := CALM.(call := Call(false, true, true));
      var w := World([CALM, marked, CALM], 1, {}, [], false, Some(0), false, false);
      var d := CallTool(w, false, true);
      d.r == Success(1) && |d.w.calls| == 2 && !d.w.calls[0].gated && !d.w.calls[1].gated
  {
    var marked := CALM.(call := Call(false, true, true));
    var w := World([CALM, marked, CALM], 1, {}, [], false, Some(0), false, false);
    assert CallOnSession(w, false).r == Success(0) && CallOnSession(w, false).w.script == [CALM];
    var once := Invoke(w, false);
    assert CallOnSession(once.w, false).r == Success(1);
    assert Invoke(once.w, false).r == Success(1);
    assert PollReady(once.w).r == Success(1);
  }

  // ---- Listings and sessions -------------------------------------------------------------

  /** A listing calls nothing, and one that returns has listed on the session the client then
      holds: the one it came with, or a fresh one. */
  lemma {:induction false} ListingRecovers(w: World)
    requires Listed(w)
    ensures var d := ListTools(w);
      && d.w.calls == w.calls && Listed(d.w) && (d.r.Success? ==> d.w.toolsListed && d.w.schemas)
      && (d.r == Failure(Terminated) ==> d.w.late)
      && (d.w.session == w.session || d.w.session.None? || d.w.session.value >= w.nextSession)
    decreases |w.script|
  {
    var listed := ListOnSession(w);
    if listed.r == Failure(Terminated) && !listed.w.late {
      var again := Reinit(listed.w);
      SessionsOnlyRenew(listed.w);
      if again.r.Success? {
        ListingRecovers(again.w);
      }
    }
  }

  lemma {:induction false} SessionsOnlyRenew(w: World)
    ensures Reinit(w).r.Failure? ==> Reinit(w).w.session.None?
    decreases |w.script|
  {
    if w.script != [] && w.script[0].handshake.Gated? && !w.script[0].late {
      SessionsOnlyRenew(w.(session := None, schemas := false, toolsListed := false,
                           script := w.script[1..], late := w.script[0].late));
    }
  }
}
