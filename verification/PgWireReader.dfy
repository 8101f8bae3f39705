/** The reader and the tap in the form of e2e/src/tai42_e2e/pgwire.py: fields reassigned and
    loops, each method leaving exactly what the functions of `PgWire` say. */
module PgWireReader {
  import opened Outcome
  import opened PgWire

  class PgStatementTap {
    var statements: seq<Statement>

    constructor ()
      ensures statements == []
    {
      statements := [];
    }

    method Record(statement: Statement)
      modifies this
      ensures statements == old(statements) + [statement]
    {
      statements := statements + [statement];
    }

    method Mark() returns (end: nat)
      ensures end == |statements|
    {
      end := |statements|;
    }

    /** Everything recorded after `mark`: nothing when the mark lies past the end. */
    method Since(mark: nat) returns (recorded: seq<Statement>)
      ensures mark <= |statements| ==> statements == statements[..mark] + recorded
      ensures mark > |statements| ==> recorded == []
    {
      recorded := if mark <= |statements| then statements[mark..] else [];
    }
  }

  class PgConnectionReader {
    const tap: PgStatementTap
    var buffer: seq<Byte>
    var started: bool
    var prepared: map<Text, Text>

    /** The reader as a value, with the record it shares. */
    ghost function Value(): Decoder
      reads this, tap
    {
      Decoder(buffer, started, prepared, tap.statements)
    }

    constructor (tap: PgStatementTap)
      ensures this.tap == tap && Value() == FRESH.(records := tap.statements)
    {
      this.tap := tap;
      buffer, started, prepared := [], false, map[];
    }

    method Feed(data: seq<Byte>) returns (error: Option<Error>)
      modifies this, tap
      ensures Fed(Value(), error) == old(PgWire.Feed(Value(), data))
    {
      buffer := buffer + data;
      var more: bool := true;
      error := None;
      while more
        invariant more ==> error.None? && Drain(Value()) == old(PgWire.Feed(Value(), data))
        invariant !more ==> Fed(Value(), error) == old(PgWire.Feed(Value(), data))
        decreases more, |buffer|
      {
        more, error := NextMessage();
      }
    }

    /** True when a message was consumed; an error ends the loop. */
    method NextMessage() returns (more: bool, error: Option<Error>)
      modifies this, tap
      ensures match old(Next(Value()))
              case NeedMore => !more && error == None && Value() == old(Value())
              case Consumed(after) => more && error == None && Value() == after
              case Failed(at, e) => !more && error == Some(e) && Value() == at
    {
      if !started {
        more, error := NextStartupMessage();
        return;
      }
      if |buffer| < 5 {
        return false, None;
      }
      var kind, length := buffer[0], Int32At(buffer, 1);
      if length < 4 {
        return false, Some(MalformedLength(kind, length));
      }
      if |buffer| < 1 + length {
        return false, None;
      }
      var body := buffer[5..1 + length];
      buffer := buffer[1 + length..];
      error := Message(kind, body);
      more := error.None?;
    }

    method NextStartupMessage() returns (more: bool, error: Option<Error>)
      modifies this
      ensures match old(NextStartup(Value()))
              case NeedMore => !more && error == None && Value() == old(Value())
              case Consumed(after) => more && error == None && Value() == after
              case Failed(at, e) => !more && error == Some(e) && Value() == at
    {
      if |buffer| < 8 {
        return false, None;
      }
      var length, code := Int32At(buffer, 0), Int32At(buffer, 4);
      if length < 8 || length > 10_000 {
        return false, Some(UnreadableStartup(length));
      }
      if |buffer| < length {
        return false, None;
      }
      buffer := buffer[length..];
      if code == PROTOCOL_V3 {
        started := true;
      } else if code !in {SSL_REQUEST, GSSENC_REQUEST, CANCEL_REQUEST} {
        return false, Some(UnknownStartupCode(code));
      }
      return true, None;
    }

    method Message(kind: Byte, body: seq<Byte>) returns (error: Option<Error>)
      modifies this`prepared, tap
      ensures match MessageEffect(kind, body, old(prepared))
              case Failure(e) => error == Some(e) && prepared == old(prepared) && tap.statements == old(tap.statements)
              case Success(f) =>
                error == None && prepared == f.prepared && tap.statements == old(tap.statements) + f.recorded
    {
      error := None;
      if kind == KIND_QUERY {
        var text := CString(body, 0);
        if text.Failure? {
          return Some(text.error);
        }
        tap.Record(Statement(text.value.0, []));
      } else if kind == KIND_PARSE {
        var name := CString(body, 0);
        if name.Failure? {
          return Some(name.error);
        }
        var sql := CString(body, name.value.1);
        if sql.Failure? {
          return Some(sql.error);
        }
        prepared := prepared[name.value.0 := sql.value.0];
      } else if kind == KIND_BIND {
        error := BindMessage(body);
      } else if kind == KIND_CLOSE && |body| > 0 && body[0] == TARGET_STATEMENT {
        var name := CString(body, 1);
        if name.Failure? {
          return Some(name.error);
        }
        prepared := prepared - {name.value.0};
      }
    }

    method BindMessage(body: seq<Byte>) returns (error: Option<Error>)
      modifies tap
      ensures match MessageEffect(KIND_BIND, body, prepared)
              case Failure(e) => error == Some(e) && tap.statements == old(tap.statements)
              case Success(f) => error == None && tap.statements == old(tap.statements) + f.recorded
    {
      hide CString, BindParams;
      var portal := CString(body, 0);
      if portal.Failure? {
        return Some(portal.error);
      }
      var name := CString(body, portal.value.1);
      if name.Failure? {
        return Some(name.error);
      }
      if name.value.0 !in prepared {
        return Some(UnknownStatement(name.value.0));
      }
      var params := BindValues(body, name.value.1);
      if params.Failure? {
        return Some(params.error);
      }
      tap.Record(Statement(prepared[name.value.0], params.value));
      error := None;
    }
  }

  /** The rest of a Bind after its names: format codes skipped, then each value in turn. */
  method BindValues(body: seq<Byte>, start: nat) returns (params: Result<seq<Option<seq<Byte>>>, Error>)
    ensures params == BindParams(body, start)
  {
    hide UnpackIndex, Int16At, ReadParam;
    var at := UnpackIndex(|body|, start, 2);
    if at.None? {
      return Failure(ShortBody);
    }
    var offset := start + 2 + 2 * Int16At(body, at.value);
    at := UnpackIndex(|body|, offset, 2);
    if at.None? {
      return Failure(ShortBody);
    }
    var count := Int16At(body, at.value);
    params := ParamLoop(body, offset + 2, if count < 0 then 0 else count);
  }

  method ParamLoop(body: seq<Byte>, start: int, count: nat) returns (params: Result<seq<Option<seq<Byte>>>, Error>)
    ensures params == ReadParams(body, start, count)
  {
    hide ReadParam;
    var offset, values := start, [];
    ghost var all := ReadParams(body, start, count);
    assert all.Success? ==> [] + all.value == all.value;
    for i := 0 to count
      invariant all == match ReadParams(body, offset, count - i)
                       case Failure(e) => Failure(e)
                       case Success(rest) => Success(values + rest)
    {
      var param := ReadParam(body, offset);
      if param.Failure? {
        return Failure(param.error);
      }
      var (value, next) := param.value;
      ghost var rest := ReadParams(body, next, count - i - 1);
      assert rest.Success? ==> values + ([value] + rest.value) == values + [value] + rest.value;
      values, offset := values + [value], next;
    }
    assert values + [] == values;
    return Success(values);
  }
}
