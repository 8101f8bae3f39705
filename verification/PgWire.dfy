/** The PostgreSQL wire tap of e2e/src/tai42_e2e/pgwire.py.

    `Decoder` is the value of one connection's reader together with the shared record; `Next`
    is one turn of its framing loop and `Feed` one call of `feed`.  Module PgWireReader has the
    reader and the tap in their own imperative form, proved against it. */
module PgWire {
  import opened Outcome

  type Byte = b: int | 0 <= b < 0x100

  /** A decoded string is kept as its UTF-8 bytes: decoding is injective on valid input. */
  type Text = seq<Byte>

  datatype Statement = Statement(sql: Text, params: seq<Option<seq<Byte>>>)

  datatype Error =
    | MalformedLength(kind: Byte, length: int)
    | UnreadableStartup(length: int)
    | UnknownStartupCode(code: int)
    | NoTerminator
    | NotUtf8
    | UnknownStatement(name: Text)
    | ShortBody

  const PROTOCOL_V3 := 196608
  const SSL_REQUEST := 80877103
  const GSSENC_REQUEST := 80877104
  const CANCEL_REQUEST := 80877102

  const KIND_QUERY: Byte := 'Q' as int
  const KIND_PARSE: Byte := 'P' as int
  const KIND_BIND: Byte := 'B' as int
  const KIND_CLOSE: Byte := 'C' as int
  const TARGET_STATEMENT: Byte := 'S' as int

  // ---- Python's reads of a bytes object ------------------------------------------------

  /** The signed big-endian number with these bytes. */
  function Signed32(b0: int, b1: int, b2: int, b3: int): int {
    var u := 0x1000000 * b0 + 0x10000 * b1 + 0x100 * b2 + b3;
    if u < 0x80000000 then u else u - 0x1_0000_0000
  }

  function Signed16(b0: int, b1: int): int {
    var u := 0x100 * b0 + b1;
    if u < 0x8000 then u else u - 0x1_0000
  }

  /** `struct.unpack_from("!i", ...)` at an index already known to be in range. */
  function Int32At(s: seq<Byte>, i: nat): int
    requires i + 4 <= |s|
  {
    Signed32(s[i], s[i + 1], s[i + 2], s[i + 3])
  }

  function Int16At(s: seq<Byte>, i: nat): int
    requires i + 2 <= |s|
  {
    Signed16(s[i], s[i + 1])
  }

  /** Where `struct.unpack_from` reads `size` bytes at `offset`, if it can: a negative offset
      counts from the end, and must leave room for the value before the end. */
  function UnpackIndex(length: nat, offset: int, size: nat): (r: Option<nat>)
    ensures r.Some? ==> r.value + size <= length
  {
    if offset < 0 then
      if offset + size > 0 || offset + length < 0 then None else Some(offset + length)
    else if length - offset < size then None
    else Some(offset)
  }

  /** A Python slice bound. */
  function ClampIndex(length: nat, i: int): (r: nat)
    ensures r <= length
  {
    var j := if i < 0 then i + length else i;
    if j < 0 then 0 else if j > length then length else j
  }

  function PySlice(s: seq<Byte>, lo: int, hi: int): seq<Byte> {
    var a, b := ClampIndex(|s|, lo), ClampIndex(|s|, hi);
    if a <= b then s[a..b] else []
  }

  /** The index of the first NUL at or after `i`, or |s|. */
  function NulFrom(s: seq<Byte>, i: nat): (r: nat)
    requires i <= |s|
    ensures i <= r <= |s|
    decreases |s| - i
  {
    if i == |s| || s[i] == 0 then i else NulFrom(s, i + 1)
  }

  predicate Continuation(b: Byte) { 0x80 <= b <= 0xBF }

  /** What `bytes.decode()` accepts: no overlong form, no surrogate, nothing above U+10FFFF. */
  predicate Utf8(s: seq<Byte>) {
    if s == [] then true
    else if s[0] <= 0x7F then Utf8(s[1..])
    else if 0xC2 <= s[0] <= 0xDF then |s| >= 2 && Continuation(s[1]) && Utf8(s[2..])
    else if 0xE0 <= s[0] <= 0xEF then
      && |s| >= 3 && Continuation(s[1]) && Continuation(s[2])
      && (s[0] == 0xE0 ==> s[1] >= 0xA0) && (s[0] == 0xED ==> s[1] <= 0x9F)
      && Utf8(s[3..])
    else if 0xF0 <= s[0] <= 0xF4 then
      && |s| >= 4 && Continuation(s[1]) && Continuation(s[2]) && Continuation(s[3])
      && (s[0] == 0xF0 ==> s[1] >= 0x90) && (s[0] == 0xF4 ==> s[1] <= 0x8F)
      && Utf8(s[4..])
    else false
  }

  /** `_cstring`: the string at `offset` and the offset just past its terminator. */
  function CString(body: seq<Byte>, offset: nat): (r: Result<(Text, nat), Error>)
    ensures r.Success? ==> offset < r.value.1 <= |body|
  {
    if offset > |body| then Failure(NoTerminator) else
    var end := NulFrom(body, offset);
    if end == |body| then Failure(NoTerminator)
    else if !Utf8(body[offset..end]) then Failure(NotUtf8)
    else Success((body[offset..end], end + 1))
  }

  // ---- One frontend message ------------------------------------------------------------

  /** One parameter of a Bind, and the offset past it: a negative length is SQL NULL, and a
      value running past the end of the message is cut short. */
  function ReadParam(body: seq<Byte>, offset: int): Result<(Option<seq<Byte>>, int), Error> {
    var at := UnpackIndex(|body|, offset, 4);
    if at.None? then Failure(ShortBody) else
    var size := Int32At(body, at.value);
    if size < 0 then Success((None, offset + 4))
    else Success((Some(PySlice(body, offset + 4, offset + 4 + size)), offset + 4 + size))
  }

  /** The parameter loop of a Bind: `n` values read from `offset` on. */
  function ReadParams(body: seq<Byte>, offset: int, n: nat): (r: Result<seq<Option<seq<Byte>>>, Error>)
    ensures r.Success? ==> |r.value| == n
    decreases n
  {
    if n == 0 then Success([]) else
    var (param, next) :- ReadParam(body, offset);
    var rest :- ReadParams(body, next, n - 1);
    Success([param] + rest)
  }

  /** The count at `countOffset` and that many values behind it. */
  function CountedParams(body: seq<Byte>, countOffset: int): Result<seq<Option<seq<Byte>>>, Error> {
    var countAt := UnpackIndex(|body|, countOffset, 2);
    if countAt.None? then Failure(ShortBody) else
    var count := Int16At(body, countAt.value);
    ReadParams(body, countOffset + 2, if count < 0 then 0 else count)
  }

  /** The values of a Bind whose portal and statement names end at `offset`: the format codes are
      stepped over by their count, which is read signed. */
  function BindParams(body: seq<Byte>, offset: nat): Result<seq<Option<seq<Byte>>>, Error> {
    var formatsAt := UnpackIndex(|body|, offset, 2);
    if formatsAt.None? then Failure(ShortBody)
    else CountedParams(body, offset + 2 + 2 * Int16At(body, formatsAt.value))
  }

  /** What one message does: the new prepared table and the statements it records. */
  datatype Effect = Effect(prepared: map<Text, Text>, recorded: seq<Statement>)

  function MessageEffect(kind: Byte, body: seq<Byte>, prepared: map<Text, Text>): Result<Effect, Error> {
    if kind == KIND_QUERY then
      var (sql, _) :- CString(body, 0);
      Success(Effect(prepared, [Statement(sql, [])]))
    else if kind == KIND_PARSE then
      var (name, offset) :- CString(body, 0);
      var (sql, _) :- CString(body, offset);
      Success(Effect(prepared[name := sql], []))
    else if kind == KIND_BIND then
      var (_, portalEnd) :- CString(body, 0);
      var (name, offset) :- CString(body, portalEnd);
      if name !in prepared then Failure(UnknownStatement(name)) else
      var params :- BindParams(body, offset);
      Success(Effect(prepared, [Statement(prepared[name], params)]))
    else if kind == KIND_CLOSE && |body| > 0 && body[0] == TARGET_STATEMENT then
      var (name, _) :- CString(body, 1);
      Success(Effect(prepared - {name}, []))
    else Success(Effect(prepared, []))
  }

  // ---- The framing loop ----------------------------------------------------------------

  datatype Decoder = Decoder(buffer: seq<Byte>, started: bool, prepared: map<Text, Text>, records: seq<Statement>)

  /** A reader just constructed, over an empty record. */
  const FRESH := Decoder([], false, map[], [])

  datatype Turn = NeedMore | Consumed(after: Decoder) | Failed(at: Decoder, error: Error)

  function Next(d: Decoder): (t: Turn)
    ensures t.Consumed? ==> |t.after.buffer| < |d.buffer|
  {
    if d.started then NextTyped(d) else NextStartup(d)
  }

  function NextTyped(d: Decoder): (t: Turn)
    ensures t.Consumed? ==> |t.after.buffer| < |d.buffer|
  {
    if |d.buffer| < 5 then NeedMore else
    var kind, length := d.buffer[0], Int32At(d.buffer, 1);
    if length < 4 then Failed(d, MalformedLength(kind, length))
    else if |d.buffer| < 1 + length then NeedMore
    else
      var rest := d.(buffer := d.buffer[1 + length..]);
      match MessageEffect(kind, d.buffer[5..1 + length], d.prepared)
      case Failure(e) => Failed(rest, e)
      case Success(effect) => Consumed(rest.(prepared := effect.prepared, records := d.records + effect.recorded))
  }

  function NextStartup(d: Decoder): (t: Turn)
    ensures t.Consumed? ==> |t.after.buffer| < |d.buffer|
  {
    if |d.buffer| < 8 then NeedMore else
    var length, code := Int32At(d.buffer, 0), Int32At(d.buffer, 4);
    if length < 8 || length > 10_000 then Failed(d, UnreadableStartup(length))
    else if |d.buffer| < length then NeedMore
    else
      var rest := d.(buffer := d.buffer[length..]);
      if code == PROTOCOL_V3 then Consumed(rest.(started := true))
      else if code in {SSL_REQUEST, GSSENC_REQUEST, CANCEL_REQUEST} then Consumed(rest)
      else Failed(rest, UnknownStartupCode(code))
  }

  /** Where a feed leaves the reader: drained, or raising. */
  datatype Fed = Fed(d: Decoder, error: Option<Error>)

  function Drain(d: Decoder): Fed
    decreases |d.buffer|
  {
    match Next(d)
    case NeedMore => Fed(d, None)
    case Failed(at, e) => Fed(at, Some(e))
    case Consumed(after) => Drain(after)
  }

  function Append(d: Decoder, data: seq<Byte>): Decoder { d.(buffer := d.buffer + data) }

  function Feed(d: Decoder, data: seq<Byte>): Fed { Drain(Append(d, data)) }

  // ---- Chunking independence -----------------------------------------------------------

  lemma AppendKeepsFront(a: seq<Byte>, b: seq<Byte>, i: nat, j: nat)
    requires i <= j <= |a|
    ensures (a + b)[i..j] == a[i..j] && (a + b)[j..] == a[j..] + b
  {
  }

  /** A turn that did something does the same with more bytes behind it. */
  lemma NextIgnoresWhatFollows(d: Decoder, more: seq<Byte>)
    ensures Next(d).Consumed? ==> Next(Append(d, more)) == Consumed(Append(Next(d).after, more))
    ensures Next(d).Failed? ==> Next(Append(d, more)) == Failed(Append(Next(d).at, more), Next(d).error)
  {
    hide Signed32, MessageEffect;
    if d.started && |d.buffer| >= 5 {
      var length := Int32At(d.buffer, 1);
      assert Int32At(d.buffer + more, 1) == length;
      if 4 <= length < |d.buffer| {
        AppendKeepsFront(d.buffer, more, 5, 1 + length);
      }
    } else if !d.started && |d.buffer| >= 8 {
      var length := Int32At(d.buffer, 0);
      assert Int32At(d.buffer + more, 0) == length && Int32At(d.buffer + more, 4) == Int32At(d.buffer, 4);
      if 8 <= length <= |d.buffer| {
        AppendKeepsFront(d.buffer, more, 0, length);
      }
    }
  }

  /** Feeding two chunks is feeding their concatenation. */
  lemma {:induction false} DrainInTwo(d: Decoder, more: seq<Byte>)
    ensures var first := Drain(d);
      Drain(Append(d, more)) ==
        if first.error.None? then Feed(first.d, more) else Fed(Append(first.d, more), first.error)
    decreases |d.buffer|
  {
    NextIgnoresWhatFollows(d, more);
    if Next(d).Consumed? {
      DrainInTwo(Next(d).after, more);
    }
  }

  lemma {:induction false} DrainedIsQuiet(d: Decoder)
    ensures Drain(d).error.None? ==> Next(Drain(d).d) == NeedMore
    decreases |d.buffer|
  {
    hide Next;
    if Next(d).Consumed? {
      DrainedIsQuiet(Next(d).after);
    }
  }

  function Concat(chunks: seq<seq<Byte>>): seq<Byte> {
    if chunks == [] then [] else chunks[0] + Concat(chunks[1..])
  }

  /** The relay's use of a reader: chunk after chunk, stopping at the first error, with the
      bytes never fed left over. */
  function FeedChunks(d: Decoder, chunks: seq<seq<Byte>>): (Fed, seq<Byte>)
    decreases |chunks|
  {
    if chunks == [] then (Fed(d, None), []) else
    var first := Feed(d, chunks[0]);
    if first.error.Some? then (first, Concat(chunks[1..])) else FeedChunks(first.d, chunks[1..])
  }

  /** However the stream is cut, the reader ends as if it had been fed whole: same records,
      prepared table, phase and error, and the same bytes left, some of them perhaps unfed. */
  lemma {:induction false} ChunkingIndependence(d: Decoder, chunks: seq<seq<Byte>>)
    requires Next(d) == NeedMore
    ensures var (chunked, unfed) := FeedChunks(d, chunks);
      && Feed(d, Concat(chunks)) == Fed(Append(chunked.d, unfed), chunked.error)
      && (chunked.error.None? ==> unfed == [])
    decreases |chunks|
  {
    if chunks == [] {
      assert Append(d, []) == d;
    } else {
      var first, rest := Feed(d, chunks[0]), Concat(chunks[1..]);
      DrainInTwo(Append(d, chunks[0]), rest);
      assert Append(Append(d, chunks[0]), rest) == Append(d, Concat(chunks));
      if first.error.None? {
        DrainedIsQuiet(Append(d, chunks[0]));
        ChunkingIndependence(first.d, chunks[1..]);
      }
    }
  }

  /** Two cuts of one stream cannot be told apart by what the tap recorded or raised. */
  lemma {:induction false} AnyTwoCutsAgree(d: Decoder, cut1: seq<seq<Byte>>, cut2: seq<seq<Byte>>)
    requires Next(d) == NeedMore && Concat(cut1) == Concat(cut2)
    ensures var (a, unfedA) := FeedChunks(d, cut1); var (b, unfedB) := FeedChunks(d, cut2);
      && a.error == b.error && a.d.records == b.d.records && a.d.prepared == b.d.prepared
      && a.d.started == b.d.started && a.d.buffer + unfedA == b.d.buffer + unfedB
      && (a.error.None? ==> a == b)
  {
    ChunkingIndependence(d, cut1);
    ChunkingIndependence(d, cut2);
    var (a, unfedA) := FeedChunks(d, cut1);
    var (b, unfedB) := FeedChunks(d, cut2);
    assert Append(a.d, unfedA) == Append(b.d, unfedB);
    if a.error.None? {
      assert Append(a.d, []) == a.d && Append(b.d, []) == b.d;
    }
  }
}
