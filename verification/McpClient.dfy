/** The client of e2e/src/tai42_e2e/mcp.py in its own form: an object that swaps its SDK client
    and keeps its own record of the listing, each method leaving what `McpSession` says. */
module McpClient {
  import opened Outcome
  import opened McpSession

  /** The endpoint: what it will do next, and what it did. */
  class Server {
    var script: seq<Entry>
    var nextSession: nat
    var retired: set<nat>
    var calls: seq<Call>
    var late: bool

    constructor (script: seq<Entry>)
      ensures this.script == script && nextSession == 0 && retired == {} && calls == [] && !late
    {
      this.script, nextSession, retired, calls, late := script, 0, {}, [], false;
    }
  }

  class Client {
    const server: Server
    var session: Option<nat>
    var schemas: bool
    var toolsListed: bool

    ghost function Value(): World
      reads this, server
    {
      World(server.script, server.nextSession, server.retired, server.calls, server.late, session, schemas, toolsListed)
    }

    /** No session is open yet, and nothing has listed. */
    constructor (server: Server)
      ensures this.server == server && session == None && !schemas && !toolsListed
    {
      this.server := server;
      session, schemas, toolsListed := None, false, false;
    }

    /** One request on the current session; None when it is not served. */
    method Request() returns (r: Result<Entry, Error>)
      modifies server
      ensures Done(Value(), r) == old(Send(Value()))
    {
      if session.None? {
        return Failure(NotConnected);
      }
      if server.script == [] {
        return Failure(NoReply);
      }
      var e := server.script[0];
      server.script, server.late := server.script[1..], e.late;
      if e.retiresBefore {
        server.retired := server.retired + {session.value};
      }
      r := if session.value in server.retired then Failure(Terminated) else Success(e);
    }

    method List() returns (r: Result<(), Error>)
      modifies this`schemas, server
      ensures Done(Value(), r) == old(SdkList(Value()))
    {
      var sent := Request();
      if sent.Failure? {
        return Failure(sent.error);
      }
      if sent.value.listFails {
        return Failure(Broken);
      }
      schemas := true;
      r := Success(());
    }

    method ListOnSession() returns (r: Result<(), Error>)
      modifies this`schemas, this`toolsListed, server
      ensures Done(Value(), r) == old(McpSession.ListOnSession(Value()))
    {
      r := List();
      if r.Success? {
        toolsListed := true;
      }
    }

    method Call(raiseOnError: bool) returns (r: Result<nat, Error>)
      modifies this`schemas, server
      ensures Done(Value(), r) == old(SdkCall(Value(), raiseOnError))
    {
      var sent := Request();
      if sent.Failure? {
        return Failure(sent.error);
      }
      var entry := sent.value;
      if !entry.reaches {
        return Failure(Broken);
      }
      var run := |server.calls|;
      server.calls := server.calls + [entry.call];
      if entry.retiresDuring {
        server.retired := server.retired + {session.value};
      }
      if !entry.delivered {
        return Failure(NoReply);
      }
      if entry.call.isError {
        return if raiseOnError then Failure(ToolFailed(run)) else Success(run);
      }
      if !schemas {
        var listed := List();
        if listed.Failure? {
          return Failure(listed.error);
        }
      }
      r := Success(run);
    }

    method CallOnSession(raiseOnError: bool) returns (r: Result<nat, Error>)
      modifies this`schemas, this`toolsListed, server
      ensures Done(Value(), r) == old(McpSession.CallOnSession(Value(), raiseOnError))
    {
      hide SdkCall;
      if !toolsListed {
        var listed := ListOnSession();
        if listed.Failure? {
          return Failure(listed.error);
        }
      }
      r := Call(raiseOnError);
    }

    method Reinit() returns (r: Result<(), Error>)
      modifies this, server
      ensures Done(Value(), r) == old(McpSession.Reinit(Value()))
    {
      while true
        invariant McpSession.Reinit(Value()) == old(McpSession.Reinit(Value()))
        decreases |server.script|
      {
        session, schemas, toolsListed := None, false, false;
        if server.script == [] {
          return Failure(Expired);
        }
        var e := server.script[0];
        server.script, server.late := server.script[1..], e.late;
        match e.handshake {
          case Opens =>
            session := Some(server.nextSession);
            server.nextSession := server.nextSession + 1;
            return Success(());
          case Refused =>
            return Failure(Broken);
          case Gated =>
            if server.late {
              return Failure(Expired);
            }
        }
      }
    }

    method Invoke(raiseOnError: bool) returns (r: Result<nat, Error>)
      modifies this, server
      ensures Done(Value(), r) == old(McpSession.Invoke(Value(), raiseOnError))
    {
      hide McpSession.CallOnSession, McpSession.Reinit;
      while true
        invariant McpSession.Invoke(Value(), raiseOnError) == old(McpSession.Invoke(Value(), raiseOnError))
        decreases |server.script|
      {
        r := CallOnSession(raiseOnError);
        if r != Failure(Terminated) || server.late {
          return;
        }
        var again := Reinit();
        if again.Failure? {
          return Failure(again.error);
        }
      }
    }

    method ListTools() returns (r: Result<(), Error>)
      modifies this, server
      ensures Done(Value(), r) == old(McpSession.ListTools(Value()))
    {
      hide McpSession.ListOnSession, McpSession.Reinit;
      while true
        invariant McpSession.ListTools(Value()) == old(McpSession.ListTools(Value()))
        decreases |server.script|
      {
        r := ListOnSession();
        if r != Failure(Terminated) || server.late {
          return;
        }
        var again := Reinit();
        if again.Failure? {
          return again;
        }
      }
    }

    /** `call_tool`: with the result, the calls the server handled for it. */
    method CallTool(raiseOnError: bool, retryOnReloading: bool) returns (r: Result<nat, Error>)
      modifies this, server
      ensures Done(Value(), r) == old(McpSession.CallTool(Value(), raiseOnError, retryOnReloading))
      ensures old(Listed(Value())) ==>
        if retryOnReloading then PolledOnce(old(Value()), Done(Value(), r), raiseOnError)
        else OnceAtMost(old(Value()), Done(Value(), r), raiseOnError)
    {
      hide McpSession.Invoke, PolledOnce, OnceAtMost;
      if old(Listed(Value())) {
        CallToolOutcome(Value(), raiseOnError, retryOnReloading);
      }
      if !retryOnReloading {
        r := Invoke(raiseOnError);
        return;
      }
      while true
        invariant PollReady(Value()) == old(PollReady(Value()))
        decreases |server.script|
      {
        r := Invoke(false);
        if r.Failure? {
          return;
        }
        if !server.calls[r.value].Reloading() {
          break;
        }
        if server.late {
          return Failure(Expired);
        }
      }
      if server.calls[r.value].isError && raiseOnError {
        r := Failure(ToolFailed(r.value));
      }
    }
  }
}
