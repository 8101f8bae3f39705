/** Decoding inverts encoding: what a PostgreSQL frontend sends, laid out as section 55.7
    ("Message Formats") of the PostgreSQL 16 documentation lays it out, is what the tap
    records. */
module PgConversation {
  import opened Outcome
  import opened PgWire

  /** A typed message; the trailing fields the tap does not read are kept as `rest`. */
  datatype Message =
    | Query(sql: Text)
    | Parse(name: Text, sql: Text, rest: seq<Byte>)
    | Bind(portal: Text, name: Text, formats: seq<(Byte, Byte)>, params: seq<Option<seq<Byte>>>, rest: seq<Byte>)
    | CloseStatement(name: Text)
    | Other(kind: Byte, body: seq<Byte>)

  /** The untyped first messages: encryption and cancel requests, then the version 3 startup. */
  datatype Hello = Hello(code: int, payload: seq<Byte>)

  datatype Conversation = Conversation(requests: seq<Hello>, startup: seq<Byte>, messages: seq<Message>)

  // ---- What a frontend may send ----------------------------------------------------------

  predicate Plain(t: Text) { 0 !in t && Utf8(t) }

  predicate HelloFits(payload: seq<Byte>) { 8 + |payload| <= 10_000 }

  /** Counts at most 32767: the range of the signed 16-bit read. */
  predicate WellFormed(m: Message) {
    && |Body(m)| + 4 < 0x80000000
    && match m
       case Query(sql) => Plain(sql)
       case Parse(name, sql, _) => Plain(name) && Plain(sql)
       case Bind(portal, name, formats, params, _) =>
         && Plain(portal) && Plain(name) && |formats| <= 32767 && |params| <= 32767
         && forall i :: 0 <= i < |params| && params[i].Some? ==> |params[i].value| < 0x80000000
       case CloseStatement(name) => Plain(name)
       case Other(kind, body) =>
         && kind !in {KIND_QUERY, KIND_PARSE, KIND_BIND}
         && !(kind == KIND_CLOSE && |body| > 0 && body[0] == TARGET_STATEMENT)
  }

  ghost predicate WellFormedConversation(c: Conversation) {
    && (forall i :: 0 <= i < |c.requests| ==>
          c.requests[i].code in {SSL_REQUEST, GSSENC_REQUEST, CANCEL_REQUEST} && HelloFits(c.requests[i].payload))
    && HelloFits(c.startup)
    && forall i :: 0 <= i < |c.messages| ==> WellFormed(c.messages[i])
  }

  // ---- Encoding --------------------------------------------------------------------------

  function Int32(n: int): (s: seq<Byte>)
    requires -0x80000000 <= n < 0x80000000
    ensures |s| == 4
  {
    var u := if n < 0 then n + 0x1_0000_0000 else n;
    [u / 0x1000000, u / 0x10000 % 0x100, u / 0x100 % 0x100, u % 0x100]
  }

  function UInt16(n: nat): (s: seq<Byte>)
    requires n < 0x10000
    ensures |s| == 2
  {
    [n / 0x100, n % 0x100]
  }

  function EncodeFormats(formats: seq<(Byte, Byte)>): (s: seq<Byte>)
    ensures |s| == 2 * |formats|
  {
    if formats == [] then [] else [formats[0].0, formats[0].1] + EncodeFormats(formats[1..])
  }

  function EncodeParam(p: Option<seq<Byte>>): seq<Byte> {
    match p
    case None => Int32(-1)
    case Some(v) => if |v| < 0x80000000 then Int32(|v|) + v else []
  }

  function EncodeParams(params: seq<Option<seq<Byte>>>): seq<Byte> {
    if params == [] then [] else EncodeParam(params[0]) + EncodeParams(params[1..])
  }

  function Kind(m: Message): Byte {
    match m
    case Query(_) => KIND_QUERY
    case Parse(_, _, _) => KIND_PARSE
    case Bind(_, _, _, _, _) => KIND_BIND
    case CloseStatement(_) => KIND_CLOSE
    case Other(kind, _) => kind
  }

  /** The part of a Bind after its two names. */
  function BindTail(formats: seq<(Byte, Byte)>, params: seq<Option<seq<Byte>>>, rest: seq<Byte>): seq<Byte> {
    UInt16(|formats| % 0x10000) + EncodeFormats(formats) + UInt16(|params| % 0x10000) + EncodeParams(params) + rest
  }

  function Body(m: Message): seq<Byte> {
    match m
    case Query(sql) => sql + [0]
    case Parse(name, sql, rest) => name + [0] + (sql + [0] + rest)
    case Bind(portal, name, formats, params, rest) => portal + [0] + (name + [0] + BindTail(formats, params, rest))
    case CloseStatement(name) => [TARGET_STATEMENT] + (name + [0])
    case Other(_, body) => body
  }

  function Encode(m: Message): seq<Byte>
    requires |Body(m)| + 4 < 0x80000000
  {
    [Kind(m)] + Int32(|Body(m)| + 4) + Body(m)
  }

  function EncodeAll(messages: seq<Message>): seq<Byte>
    requires forall i :: 0 <= i < |messages| ==> WellFormed(messages[i])
  {
    if messages == [] then [] else
    assert WellFormed(messages[0]);
    Encode(messages[0]) + EncodeAll(messages[1..])
  }

  function EncodeHello(code: int, payload: seq<Byte>): seq<Byte>
    requires HelloFits(payload) && -0x80000000 <= code < 0x80000000
  {
    Int32(8 + |payload|) + Int32(code) + payload
  }

  ghost function EncodeConversation(c: Conversation): seq<Byte>
    requires WellFormedConversation(c)
    decreases |c.requests|
  {
    if c.requests == [] then EncodeHello(PROTOCOL_V3, c.startup) + EncodeAll(c.messages)
    else EncodeHello(c.requests[0].code, c.requests[0].payload) + EncodeConversation(c.(requests := c.requests[1..]))
  }

  // ---- What the record should hold -------------------------------------------------------

  /** The SQL `name` stands for after the first `n` messages: that of the latest Parse of it,
      unless a Close of it came later. */
  function LatestParse(messages: seq<Message>, n: nat, name: Text): Option<Text>
    requires n <= |messages|
  {
    if n == 0 then None else
    match messages[n - 1]
    case Parse(parsed, sql, _) => if parsed == name then Some(sql) else LatestParse(messages, n - 1, name)
    case CloseStatement(closed) => if closed == name then None else LatestParse(messages, n - 1, name)
    case _ => LatestParse(messages, n - 1, name)
  }

  /** Whether message `n` is a Bind of a statement nothing has prepared. */
  predicate Dangling(messages: seq<Message>, n: nat)
    requires n < |messages|
  {
    messages[n].Bind? && LatestParse(messages, n, messages[n].name).None?
  }

  /** The executions among messages `from..to`, in order, each Bind with the SQL its name stands for. */
  function Executions(messages: seq<Message>, from: nat, to: nat): seq<Statement>
    requires from <= to <= |messages|
    decreases |messages| - from
  {
    if from == to then [] else
    (match messages[from]
     case Query(sql) => [Statement(sql, [])]
     case Bind(_, name, _, params, _) =>
       (match LatestParse(messages, from, name) case Some(sql) => [Statement(sql, params)] case None => [])
     case _ => [])
    + Executions(messages, from + 1, to)
  }

  /** The first message the tap refuses, or the number of messages. */
  function FirstDangling(messages: seq<Message>, from: nat): (n: nat)
    requires from <= |messages|
    ensures from <= n <= |messages|
    ensures n < |messages| ==> Dangling(messages, n)
    ensures forall i :: from <= i < n ==> !Dangling(messages, i)
    decreases |messages| - from
  {
    if from == |messages| || Dangling(messages, from) then from else FirstDangling(messages, from + 1)
  }

  // ---- Reading back each field -----------------------------------------------------------

  /** `piece` stands in `s` at index `at`. */
  ghost predicate Holds(s: seq<Byte>, at: nat, piece: seq<Byte>) {
    at + |piece| <= |s| && s[at..at + |piece|] == piece
  }

  lemma HoldsBoth(s: seq<Byte>, at: nat, a: seq<Byte>, b: seq<Byte>)
    requires Holds(s, at, a + b)
    ensures Holds(s, at, a) && Holds(s, at + |a|, b)
  {
    var whole := s[at..at + |a + b|];
    assert whole[..|a|] == a && whole[|a|..] == b;
  }

  lemma Signed32OfDigits(n: int)
    requires -0x80000000 <= n < 0x80000000
    ensures var u := if n < 0 then n + 0x1_0000_0000 else n;
      Signed32(u / 0x1000000, u / 0x10000 % 0x100, u / 0x100 % 0x100, u % 0x100) == n
  {
    var u := if n < 0 then n + 0x1_0000_0000 else n;
    assert u == 0x100 * (u / 0x100) + u % 0x100;
    assert u / 0x100 == 0x100 * (u / 0x10000) + u / 0x100 % 0x100;
    assert u / 0x10000 == 0x100 * (u / 0x1000000) + u / 0x10000 % 0x100;
  }

  lemma Int32RoundTrip(s: seq<Byte>, at: nat, n: int)
    requires -0x80000000 <= n < 0x80000000 && Holds(s, at, Int32(n))
    ensures Int32At(s, at) == n
  {
    hide Signed32;
    Signed32OfDigits(n);
    var piece := s[at..at + 4];
    assert s[at] == piece[0] && s[at + 1] == piece[1] && s[at + 2] == piece[2] && s[at + 3] == piece[3];
  }

  lemma Int16Read(s: seq<Byte>, at: nat, n: nat)
    requires n < 0x10000 && Holds(s, at, UInt16(n))
    ensures Int16At(s, at) == if n < 0x8000 then n else n - 0x10000
  {
    var piece := s[at..at + 2];
    assert s[at] == piece[0] && s[at + 1] == piece[1];
  }

  lemma NulAfterText(s: seq<Byte>, at: nat, t: Text, i: nat)
    requires 0 !in t && i <= |t| && Holds(s, at, t + [0])
    ensures NulFrom(s, at + i) == at + |t|
    decreases |t| - i
  {
    var piece := s[at..at + |t| + 1];
    assert s[at + i] == piece[i] == (t + [0])[i];
    if i < |t| {
      NulAfterText(s, at, t, i + 1);
    }
  }

  lemma CStringReadsBack(s: seq<Byte>, at: nat, t: Text)
    requires Plain(t) && Holds(s, at, t + [0])
    ensures CString(s, at) == Success((t, at + |t| + 1))
  {
    NulAfterText(s, at, t, 0);
    HoldsBoth(s, at, t, [0]);
  }

  predicate ParamsFit(params: seq<Option<seq<Byte>>>) {
    forall i :: 0 <= i < |params| && params[i].Some? ==> |params[i].value| < 0x80000000
  }

  lemma PySliceInside(s: seq<Byte>, lo: nat, hi: nat)
    requires lo <= hi <= |s|
    ensures PySlice(s, lo, hi) == s[lo..hi]
  {
  }

  lemma ParamReadsBack(s: seq<Byte>, at: nat, p: Option<seq<Byte>>)
    requires p.Some? ==> |p.value| < 0x80000000
    requires Holds(s, at, EncodeParam(p))
    ensures ReadParam(s, at) == Success((p, at + |EncodeParam(p)|))
  {
    hide Int32At, Int32, PySlice;
    match p
    case None =>
      Int32RoundTrip(s, at, -1);
    case Some(v) =>
      HoldsBoth(s, at, Int32(|v|), v);
      Int32RoundTrip(s, at, |v|);
      PySliceInside(s, at + 4, at + 4 + |v|);
  }

  lemma {:induction false} ParamsReadBack(s: seq<Byte>, at: nat, params: seq<Option<seq<Byte>>>)
    requires ParamsFit(params) && Holds(s, at, EncodeParams(params))
    ensures ReadParams(s, at, |params|) == Success(params)
    decreases |params|
  {
    hide EncodeParam, ReadParam;
    if params != [] {
      HoldsBoth(s, at, EncodeParam(params[0]), EncodeParams(params[1..]));
      ParamReadsBack(s, at, params[0]);
      ParamsReadBack(s, at + |EncodeParam(params[0])|, params[1..]);
      assert params == [params[0]] + params[1..];
    }
  }

  /** The count of the encoded values, where it stands. */
  lemma {:induction false} CountReadsBack(s: seq<Byte>, at: nat, params: seq<Option<seq<Byte>>>)
    requires |params| < 0x10000 && ParamsFit(params) && Holds(s, at, UInt16(|params|)) && Holds(s, at + 2, EncodeParams(params))
    ensures CountedParams(s, at) == Success(if |params| <= 32767 then params else [])
  {
    hide EncodeParams, UInt16, Int16At, ParamsFit;
    Int16Read(s, at, |params|);
    if |params| <= 32767 {
      ParamsReadBack(s, at + 2, params);
    }
  }

  lemma {:induction false} TailParts(s: seq<Byte>, at: nat, formats: seq<(Byte, Byte)>, params: seq<Option<seq<Byte>>>,
                                     rest: seq<Byte>)
    requires |formats| < 0x10000 && |params| < 0x10000 && Holds(s, at, BindTail(formats, params, rest))
    ensures Holds(s, at, UInt16(|formats|))
    ensures var countAt := at + 2 + 2 * |formats|;
      Holds(s, countAt, UInt16(|params|)) && Holds(s, countAt + 2, EncodeParams(params))
  {
    hide EncodeParams, EncodeFormats, UInt16, Holds;
    var head, counted := UInt16(|formats|) + EncodeFormats(formats), UInt16(|params|);
    HoldsBoth(s, at, head + counted + EncodeParams(params), rest);
    HoldsBoth(s, at, head + counted, EncodeParams(params));
    HoldsBoth(s, at, head, counted);
    HoldsBoth(s, at, UInt16(|formats|), EncodeFormats(formats));
  }

  lemma CountIsSigned(s: seq<Byte>, at: int)
    ensures CountedParams(s, at).Success? ==> |CountedParams(s, at).value| <= 32767
  {
  }

  /** Both counts are read signed.  With at most 32767 format codes the values come back exactly
      when there are at most 32767 of them, and none does otherwise; with more format codes the
      values are counted and read that many places, two bytes each, before they begin.  A Bind that
      gives no code, one for all or one a parameter reads back exactly when it has at most 32767
      parameters. */
  lemma ParamCountIsSigned(s: seq<Byte>, at: nat, formats: seq<(Byte, Byte)>, params: seq<Option<seq<Byte>>>, rest: seq<Byte>)
    requires |formats| < 0x10000 && |params| < 0x10000 && ParamsFit(params)
    requires Holds(s, at, BindTail(formats, params, rest))
    ensures |formats| <= 32767 ==> BindParams(s, at) == Success(if |params| <= 32767 then params else [])
    ensures |formats| > 32767 ==> BindParams(s, at) == CountedParams(s, at + 2 + 2 * |formats| - 2 * 0x10000)
    ensures BindParams(s, at) == Success(params) ==> |params| <= 32767
    ensures |formats| <= 1 || |formats| == |params| ==> (BindParams(s, at) == Success(params) <==> |params| <= 32767)
  {
    hide EncodeParams, EncodeFormats, UInt16, Int16At, ParamsFit, BindTail, CountedParams;
    TailParts(s, at, formats, params, rest);
    Int16Read(s, at, |formats|);
    CountReadsBack(s, at + 2 + 2 * |formats|, params);
    if |formats| > 32767 {
      CountIsSigned(s, at + 2 + 2 * |formats| - 2 * 0x10000);
    }
  }

  /** 65535 format codes: their own count is read again as the parameters', negative, and no
      parameter is recorded however few there are. */
  lemma MostCodesLoseAll(s: seq<Byte>, at: nat, formats: seq<(Byte, Byte)>, params: seq<Option<seq<Byte>>>, rest: seq<Byte>)
    requires |formats| == 65535 && |params| < 0x10000 && ParamsFit(params)
    requires Holds(s, at, BindTail(formats, params, rest))
    ensures BindParams(s, at) == Success([])
  {
    hide EncodeParams, EncodeFormats, UInt16, Int16At, BindTail;
    ParamCountIsSigned(s, at, formats, params, rest);
    TailParts(s, at, formats, params, rest);
    Int16Read(s, at, 65535);
  }

  /** 65534 behind a name that ends in byte 1: its last two bytes are read as 256 parameters. */
  lemma OneCodeFewerInvents(s: seq<Byte>, at: nat, formats: seq<(Byte, Byte)>, params: seq<Option<seq<Byte>>>, rest: seq<Byte>)
    requires |formats| == 65534 && |params| < 0x10000 && ParamsFit(params)
    requires Holds(s, at, BindTail(formats, params, rest)) && at >= 2 && s[at - 2] == 1 && s[at - 1] == 0
    ensures BindParams(s, at) != Success([]) && (BindParams(s, at).Success? ==> |BindParams(s, at).value| == 256)
  {
    hide EncodeParams, EncodeFormats, UInt16, BindTail, ReadParams;
    ParamCountIsSigned(s, at, formats, params, rest);
    assert Int16At(s, at - 2) == 256;
  }

  // ---- One message -----------------------------------------------------------------------

  /** The prepared table after `n` messages agrees with the backward search. */
  ghost predicate TableMatches(prepared: map<Text, Text>, messages: seq<Message>, n: nat)
    requires n <= |messages|
  {
    forall name: Text :: LatestParse(messages, n, name) == if name in prepared then Some(prepared[name]) else None
  }

  /** What a well-formed message does, read off the message and not off its bytes. */
  function Meaning(m: Message, prepared: map<Text, Text>): Result<Effect, Error> {
    match m
    case Query(sql) => Success(Effect(prepared, [Statement(sql, [])]))
    case Parse(name, sql, _) => Success(Effect(prepared[name := sql], []))
    case Bind(_, name, _, params, _) =>
      if name !in prepared then Failure(UnknownStatement(name))
      else Success(Effect(prepared, [Statement(prepared[name], params)]))
    case CloseStatement(name) => Success(Effect(prepared - {name}, []))
    case Other(_, _) => Success(Effect(prepared, []))
  }

  lemma BindReadsBack(m: Message, prepared: map<Text, Text>)
    requires m.Bind? && WellFormed(m)
    ensures MessageEffect(KIND_BIND, Body(m), prepared) == Meaning(m, prepared)
  {
    hide CString, BindTail, BindParams, Utf8;
    var Bind(portal, name, formats, params, rest) := m;
    var body, tail := Body(m), BindTail(formats, params, rest);
    assert Holds(body, 0, body);
    HoldsBoth(body, 0, portal + [0], name + [0] + tail);
    CStringReadsBack(body, 0, portal);
    HoldsBoth(body, |portal| + 1, name + [0], tail);
    CStringReadsBack(body, |portal| + 1, name);
    ParamCountIsSigned(body, |portal| + |name| + 2, formats, params, rest);
  }

  lemma ParseReadsBack(m: Message, prepared: map<Text, Text>)
    requires m.Parse? && WellFormed(m)
    ensures MessageEffect(KIND_PARSE, Body(m), prepared) == Meaning(m, prepared)
  {
    hide CString, Utf8;
    var Parse(name, sql, rest) := m;
    var body := Body(m);
    assert Holds(body, 0, body);
    HoldsBoth(body, 0, name + [0], sql + [0] + rest);
    CStringReadsBack(body, 0, name);
    HoldsBoth(body, |name| + 1, sql + [0], rest);
    CStringReadsBack(body, |name| + 1, sql);
  }

  lemma BodyReadsBack(m: Message, prepared: map<Text, Text>)
    requires WellFormed(m)
    ensures MessageEffect(Kind(m), Body(m), prepared) == Meaning(m, prepared)
  {
    hide CString, BindParams, Utf8;
    match m
    case Query(sql) =>
      CStringReadsBack(Body(m), 0, sql);
    case Parse(_, _, _) =>
      ParseReadsBack(m, prepared);
    case Bind(_, _, _, _, _) =>
      BindReadsBack(m, prepared);
    case CloseStatement(name) =>
      HoldsBoth(Body(m), 0, [TARGET_STATEMENT], name + [0]);
      CStringReadsBack(Body(m), 1, name);
    case Other(_, _) =>
  }

  /** The running table and the backward search stay together, message by message. */
  lemma {:induction false} TableStep(prepared: map<Text, Text>, messages: seq<Message>, n: nat)
    requires n < |messages| && TableMatches(prepared, messages, n)
    ensures var m, r := messages[n], Meaning(messages[n], prepared);
      if Dangling(messages, n) then r == Failure(UnknownStatement(m.name))
      else r.Success? && r.value.recorded == Executions(messages, n, n + 1)
           && TableMatches(r.value.prepared, messages, n + 1)
  {
    if messages[n].Bind? {
      assert LatestParse(messages, n, messages[n].name).None? <==> messages[n].name !in prepared;
    }
    assert Executions(messages, n + 1, n + 1) == [];
  }

  /** One turn of the framing loop over an encoded message is that message. */
  lemma FrameReadsBack(d: Decoder, m: Message, behind: seq<Byte>)
    requires d.started && WellFormed(m) && d.buffer == Encode(m) + behind
    ensures var rest := d.(buffer := behind);
      Next(d) == match Meaning(m, d.prepared)
                 case Failure(e) => Failed(rest, e)
                 case Success(f) => Consumed(rest.(prepared := f.prepared, records := d.records + f.recorded))
  {
    var length := |Body(m)| + 4;
    assert Holds(d.buffer, 0, [Kind(m)] + Int32(length) + Body(m) + behind);
    BodyReadsBack(m, d.prepared);
    HoldsBoth(d.buffer, 0, [Kind(m)] + Int32(length) + Body(m), behind);
    HoldsBoth(d.buffer, 0, [Kind(m)] + Int32(length), Body(m));
    HoldsBoth(d.buffer, 0, [Kind(m)], Int32(length));
    Int32RoundTrip(d.buffer, 1, length);
  }

  lemma HelloReadsBack(d: Decoder, code: int, payload: seq<Byte>, behind: seq<Byte>)
    requires !d.started && HelloFits(payload) && code in {PROTOCOL_V3, SSL_REQUEST, GSSENC_REQUEST, CANCEL_REQUEST}
    requires d.buffer == EncodeHello(code, payload) + behind
    ensures Next(d) == Consumed(d.(buffer := behind, started := code == PROTOCOL_V3))
  {
    var length := Int32(8 + |payload|);
    assert Holds(d.buffer, 0, length + Int32(code) + payload + behind);
    HoldsBoth(d.buffer, 0, length + Int32(code) + payload, behind);
    HoldsBoth(d.buffer, 0, length + Int32(code), payload);
    HoldsBoth(d.buffer, 0, length, Int32(code));
    Int32RoundTrip(d.buffer, 0, 8 + |payload|);
    Int32RoundTrip(d.buffer, 4, code);
  }

  // ---- The whole conversation ------------------------------------------------------------

  lemma NothingLeft(d: Decoder)
    requires d.buffer == []
    ensures Next(d) == NeedMore
  {
  }

  /** What the reader ends with when it starts on message `n` with the right prepared table. */
  lemma {:induction false} MessagesReadBack(d: Decoder, messages: seq<Message>, n: nat)
    requires n <= |messages| && forall i :: 0 <= i < |messages| ==> WellFormed(messages[i])
    requires d.started && TableMatches(d.prepared, messages, n) && d.buffer == EncodeAll(messages[n..])
    ensures var fed, stop := Drain(d), FirstDangling(messages, n);
      && fed.d.records == d.records + Executions(messages, n, stop)
      && fed.error == (if stop == |messages| then None else Some(UnknownStatement(messages[stop].name)))
      && fed.d.started && TableMatches(fed.d.prepared, messages, stop)
      && fed.d.buffer == EncodeAll(messages[if stop == |messages| then stop else stop + 1..])
    decreases |messages| - n
  {
    hide Encode, WellFormed, Next, Meaning, LatestParse, TableMatches;
    if n == |messages| {
      NothingLeft(d);
    } else {
      assert messages[n..][1..] == messages[n + 1..];
      FrameReadsBack(d, messages[n], EncodeAll(messages[n + 1..]));
      TableStep(d.prepared, messages, n);
      if !Dangling(messages, n) {
        var after := Next(d).after;
        MessagesReadBack(after, messages, n + 1);
        var stop := FirstDangling(messages, n + 1);
        assert Executions(messages, n, stop) == Executions(messages, n, n + 1) + Executions(messages, n + 1, stop);
      }
    }
  }

  lemma {:induction false} ConversationReadsBack(d: Decoder, c: Conversation)
    requires WellFormedConversation(c) && !d.started && d.prepared == map[] && d.buffer == EncodeConversation(c)
    ensures var fed, stop := Drain(d), FirstDangling(c.messages, 0);
      && fed.d.records == d.records + Executions(c.messages, 0, stop)
      && fed.error == (if stop == |c.messages| then None else Some(UnknownStatement(c.messages[stop].name)))
      && fed.d.started && TableMatches(fed.d.prepared, c.messages, stop)
    decreases |c.requests|
  {
    if c.requests == [] {
      HelloReadsBack(d, PROTOCOL_V3, c.startup, EncodeAll(c.messages));
      assert c.messages[0..] == c.messages;
      MessagesReadBack(Next(d).after, c.messages, 0);
    } else {
      var fewer := c.(requests := c.requests[1..]);
      HelloReadsBack(d, c.requests[0].code, c.requests[0].payload, EncodeConversation(fewer));
      ConversationReadsBack(Next(d).after, fewer);
    }
  }

  /** Decoding inverts encoding, however the relay cut the bytes: the record holds every Query
      and every Bind in order, each Bind with the SQL its name stood for and its exact values,
      and the reader raises exactly when some Bind names a statement nothing has prepared. */
  lemma {:induction false} DecodeInvertsEncode(c: Conversation, chunks: seq<seq<Byte>>)
    requires WellFormedConversation(c) && Concat(chunks) == EncodeConversation(c)
    ensures var (fed, _), stop := FeedChunks(FRESH, chunks), FirstDangling(c.messages, 0);
      && fed.d.records == Executions(c.messages, 0, stop)
      && fed.error == (if stop == |c.messages| then None else Some(UnknownStatement(c.messages[stop].name)))
      && (fed.error.None? <==> forall n :: 0 <= n < |c.messages| ==> !Dangling(c.messages, n))
  {
    ChunkingIndependence(FRESH, chunks);
    ConversationReadsBack(Append(FRESH, Concat(chunks)), c);
  }
}
