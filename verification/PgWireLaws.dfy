/** What the wire reader accepts and refuses, byte by byte: the texts `bytes.decode` takes, the strings
    it finds, the startup messages it reads. */
module PgWireLaws {
  import opened Outcome
  import opened PgWire

  // ---- UTF-8 -----------------------------------------------------------------------------

  /** A Unicode scalar value. */
  predicate Scalar(c: int) { 0 <= c <= 0x10FFFF && !(0xD800 <= c <= 0xDFFF) }

  /** Its bytes, as section 3 of RFC 3629 lays them out. */
  function EncodeChar(c: int): seq<Byte>
    requires Scalar(c)
  {
    if c < 0x80 then [c]
    else if c < 0x800 then [0xC0 + c / 64, 0x80 + c % 64]
    else if c < 0x10000 then [0xE0 + c / 4096, 0x80 + c / 64 % 64, 0x80 + c % 64]
    else [0xF0 + c / 262144, 0x80 + c / 4096 % 64, 0x80 + c / 64 % 64, 0x80 + c % 64]
  }

  predicate Scalars(cs: seq<int>) { forall i :: 0 <= i < |cs| ==> Scalar(cs[i]) }

  function EncodeAll(cs: seq<int>): seq<Byte>
    requires Scalars(cs)
  {
    if cs == [] then [] else EncodeChar(cs[0]) + EncodeAll(cs[1..])
  }

  lemma {:induction false} EncodedIsTaken(c: int, rest: seq<Byte>)
    requires Scalar(c)
    ensures Utf8(EncodeChar(c) + rest) == Utf8(rest)
  {
    var s, n := EncodeChar(c) + rest, |EncodeChar(c)|;
    assert s[n..] == rest;
  }

  lemma {:induction false} EncodingsAreTaken(cs: seq<int>)
    requires Scalars(cs)
    ensures Utf8(EncodeAll(cs))
    decreases |cs|
  {
    if cs != [] {
      EncodingsAreTaken(cs[1..]);
      EncodedIsTaken(cs[0], EncodeAll(cs[1..]));
    }
  }

  lemma SixBits(x: int, y: int)
    requires 0 <= y < 64
    ensures (64 * x + y) / 64 == x && (64 * x + y) % 64 == y
  {
  }

  lemma TwelveBits(x: int, y: int, z: int)
    requires 0 <= y < 64 && 0 <= z < 64
    ensures var c := 4096 * x + 64 * y + z; c / 4096 == x && c / 64 % 64 == y && c % 64 == z
  {
    SixBits(64 * x + y, z);
    SixBits(x, y);
  }

  lemma EighteenBits(x: int, y: int, z: int, t: int)
    requires 0 <= y < 64 && 0 <= z < 64 && 0 <= t < 64
    ensures var c := 262144 * x + 4096 * y + 64 * z + t;
      c / 262144 == x && c / 4096 % 64 == y && c / 64 % 64 == z && c % 64 == t
  {
    var c := 262144 * x + 4096 * y + 64 * z + t;
    TwelveBits(64 * x + y, z, t);
    SixBits(x, y);
    assert c / 4096 == 64 * x + y;
  }

  lemma TwoDecode(b0: Byte, b1: Byte) returns (c: int)
    requires 0xC2 <= b0 <= 0xDF && Continuation(b1)
    ensures Scalar(c) && EncodeChar(c) == [b0, b1]
  {
    c := 64 * (b0 as int - 0xC0) + (b1 as int - 0x80);
    SixBits(b0 as int - 0xC0, b1 as int - 0x80);
  }

  lemma ThreeDecode(b0: Byte, b1: Byte, b2: Byte) returns (c: int)
    requires 0xE0 <= b0 <= 0xEF && Continuation(b1) && Continuation(b2) && (b0 == 0xE0 ==> b1 >= 0xA0) && (b0 == 0xED ==> b1 <= 0x9F)
    ensures Scalar(c) && EncodeChar(c) == [b0, b1, b2]
  {
    c := 4096 * (b0 as int - 0xE0) + 64 * (b1 as int - 0x80) + (b2 as int - 0x80);
    TwelveBits(b0 as int - 0xE0, b1 as int - 0x80, b2 as int - 0x80);
  }

  lemma FourDecode(b0: Byte, b1: Byte, b2: Byte, b3: Byte) returns (c: int)
    requires 0xF0 <= b0 <= 0xF4 && Continuation(b1) && Continuation(b2) && Continuation(b3)
    requires (b0 == 0xF0 ==> b1 >= 0x90) && (b0 == 0xF4 ==> b1 <= 0x8F)
    ensures Scalar(c) && EncodeChar(c) == [b0, b1, b2, b3]
  {
    c := 262144 * (b0 as int - 0xF0) + 4096 * (b1 as int - 0x80) + 64 * (b2 as int - 0x80) + (b3 as int - 0x80);
    EighteenBits(b0 as int - 0xF0, b1 as int - 0x80, b2 as int - 0x80, b3 as int - 0x80);
  }

  /** The first character of a text that is taken. */
  lemma FirstDecodes(s: seq<Byte>) returns (c: int, n: nat)
    requires Utf8(s) && s != []
    ensures Scalar(c) && 0 < n <= |s| && EncodeChar(c) == s[..n] && Utf8(s[n..])
  {
    hide EncodeChar;
    if s[0] <= 0x7F {
      c, n := s[0], 1;
      OneDecodes(s[0]);
    } else if s[0] <= 0xDF {
      c := TwoDecode(s[0], s[1]);
      n := 2;
    } else if s[0] <= 0xEF {
      c := ThreeDecode(s[0], s[1], s[2]);
      n := 3;
    } else {
      c := FourDecode(s[0], s[1], s[2], s[3]);
      n := 4;
    }
  }

  lemma OneDecodes(b: Byte)
    requires b < 0x80
    ensures Scalar(b) && EncodeChar(b) == [b]
  {
  }

  lemma {:induction false} TakenIsEncoded(s: seq<Byte>) returns (cs: seq<int>)
    requires Utf8(s)
    ensures Scalars(cs) && EncodeAll(cs) == s
    decreases |s|
  {
    if s == [] {
      cs := [];
    } else {
      var c, n := FirstDecodes(s);
      var rest := TakenIsEncoded(s[n..]);
      cs := [c] + rest;
      assert cs[1..] == rest && s == s[..n] + s[n..];
    }
  }

  /** The reader takes exactly the encodings of texts: no overlong form, no surrogate, nothing cut short. */
  lemma {:induction false} Utf8IsEncoding(s: seq<Byte>)
    ensures Utf8(s) <==> exists cs: seq<int> :: Scalars(cs) && EncodeAll(cs) == s
  {
    hide Utf8, EncodeAll;
    if Utf8(s) {
      var cs := TakenIsEncoded(s);
    }
    if cs: seq<int> :| Scalars(cs) && EncodeAll(cs) == s {
      EncodingsAreTaken(cs);
    }
  }

  // ---- Strings and startup messages ------------------------------------------------------

  /** A string is what stands before the first terminator, if there is one and it is valid text. */
  lemma CStringIs(body: seq<Byte>, offset: nat)
    ensures CString(body, offset) == Failure(NoTerminator) <==> forall n :: offset <= n < |body| ==> body[n] != 0
    ensures forall n :: offset <= n < |body| && body[n] == 0 && (forall k :: offset <= k < n ==> body[k] != 0) ==>
      CString(body, offset) == if Utf8(body[offset..n]) then Success((body[offset..n], n + 1)) else Failure(NotUtf8)
  {
    hide Utf8;
    if offset <= |body| {
      NulIsFirst(body, offset);
    }
  }

  lemma {:induction false} NulIsFirst(s: seq<Byte>, i: nat)
    requires i <= |s|
    ensures forall k :: i <= k < NulFrom(s, i) ==> s[k] != 0
    ensures NulFrom(s, i) < |s| ==> s[NulFrom(s, i)] == 0
    decreases |s| - i
  {
    if i < |s| && s[i] != 0 {
      NulIsFirst(s, i + 1);
    }
  }

  /** A Close of a statement forgets its name, and raises where no name stands behind the target; a Close of
      anything else, or of nothing, does nothing. */
  lemma CloseIs(body: seq<Byte>, prepared: map<Text, Text>)
    ensures var r := MessageEffect(KIND_CLOSE, body, prepared);
      if body == [] || body[0] != TARGET_STATEMENT then r == Success(Effect(prepared, []))
      else match CString(body, 1)
           case Failure(e) => r == Failure(e)
           case Success(found) =>
             r == Success(Effect(map name | name in prepared && name != found.0 :: prepared[name], []))
  {
    hide CString;
    if body != [] && body[0] == TARGET_STATEMENT && CString(body, 1).Success? {
      var gone := CString(body, 1).value.0;
      assert prepared - {gone} == map name | name in prepared && name != gone :: prepared[name];
    }
  }

  /** A Bind whose format count is not there whole raises; one whose count is there goes on behind the codes
      it counts, which need not be there. */
  lemma FormatsAreSteppedOver(body: seq<Byte>, offset: nat)
    ensures BindParams(body, offset) ==
      if offset + 2 > |body| then Failure(ShortBody) else CountedParams(body, offset + 2 + 2 * Int16At(body, offset))
  {
    hide CountedParams, Int16At;
  }

  // ---- Offsets before the body -----------------------------------------------------------

  /** A negative offset counts from the end, and what does not lie in the body whole is not read. */
  lemma OffsetsFromTheEnd(length: nat, back: int, size: nat)
    requires back > 0
    ensures UnpackIndex(length, -back, size) == if back <= length then UnpackIndex(length, length - back, size) else None
  {
  }

  /** A value at a negative offset, where too many format codes lead: its size stands that far from the
      end, and its bytes are those behind it unless they reach the end.  Then they are looked for from
      the body's start: those of a size right at the end are the first of the body. */
  lemma ValueFromTheEnd(body: seq<Byte>, back: int)
    requires back > 0
    ensures ReadParam(body, -back) == Failure(ShortBody) <==> back < 4 || back > |body|
    ensures 4 <= back <= |body| ==>
      var at := |body| - back; var size, end := Int32At(body, at), Int32At(body, at) + 4 - back;
      ReadParam(body, -back) ==
        if size < 0 then Success((None, 4 - back))
        else if end < 0 then Success((Some(body[at + 4..at + 4 + size]), end))
        else if back == 4 then Success((Some(body[..if size <= |body| then size else |body|]), end))
        else Success((Some(if end <= at + 4 then [] else body[at + 4..if end <= |body| then end else |body|]), end))
  {
    OffsetsFromTheEnd(|body|, back, 4);
    if 4 <= back <= |body| && Int32At(body, |body| - back) >= 0 {
      SliceFromTheEnd(body, 4 - back, Int32At(body, |body| - back));
    }
    hide Signed32, PySlice;
  }

  lemma SliceFromTheEnd(body: seq<Byte>, lo: int, size: int)
    requires -|body| <= lo <= 0 && size >= 0
    ensures var at, hi := |body| + lo, lo + size;
      PySlice(body, lo, hi) ==
        if lo == 0 then body[..if size <= |body| then size else |body|]
        else if hi < 0 then body[at..at + size]
        else if hi <= at then [] else body[at..if hi <= |body| then hi else |body|]
  {
    if lo < 0 && lo + size == |body| + lo {
      assert body[size + lo..size + lo] == [];
    }
  }

  predicate Known(code: int) {
    code == PROTOCOL_V3 || code == SSL_REQUEST || code == GSSENC_REQUEST || code == CANCEL_REQUEST
  }

  /** A startup message raises as soon as its length is seen to be under 8 bytes or over 10000, before its
      body is there, and once whole if its code is unknown; and in no other case. */
  lemma StartupRaises(d: Decoder)
    requires !d.started && |d.buffer| >= 8
    ensures var length, code := Int32At(d.buffer, 0), Int32At(d.buffer, 4);
      && (Next(d).Failed? <==> length < 8 || length > 10_000 || (|d.buffer| >= length && !Known(code)))
      && (Next(d).NeedMore? <==> 8 <= length <= 10_000 && |d.buffer| < length)
      && (Next(d).Failed? ==>
            Next(d).error == if length < 8 || length > 10_000 then UnreadableStartup(length) else UnknownStartupCode(code))
      && (Next(d).Consumed? ==> Next(d).after == d.(buffer := d.buffer[length..], started := code == PROTOCOL_V3))
  {
    hide Signed32;
  }

  /** A typed message whose length field does not even count itself raises before its body is there, and
      nothing else about its frame does. */
  lemma FrameRaises(d: Decoder)
    requires d.started && |d.buffer| >= 5
    ensures var kind, length := d.buffer[0], Int32At(d.buffer, 1);
      && (Next(d).Failed? && Next(d).error.MalformedLength? <==> length < 4)
      && (length < 4 ==> Next(d) == Failed(d, MalformedLength(kind, length)))
      && (Next(d).NeedMore? <==> length >= 4 && |d.buffer| < 1 + length)
  {
    hide Signed32;
    if Int32At(d.buffer, 1) >= 4 && |d.buffer| >= 1 + Int32At(d.buffer, 1) {
      EffectsNeverMalformed(d.buffer[0], d.buffer[5..1 + Int32At(d.buffer, 1)], d.prepared);
    }
    hide MessageEffect;
  }

  lemma EffectsNeverMalformed(kind: Byte, body: seq<Byte>, prepared: map<Text, Text>)
    ensures MessageEffect(kind, body, prepared).Failure? ==> !MessageEffect(kind, body, prepared).error.MalformedLength?
  {
    hide Utf8, NulFrom;
    if kind == KIND_BIND && CString(body, 0).Success? && CString(body, CString(body, 0).value.1).Success? {
      ParamsNeverMalformed(body, CString(body, CString(body, 0).value.1).value.1);
    }
    hide BindParams;
  }

  lemma ParamsNeverMalformed(body: seq<Byte>, offset: nat)
    ensures BindParams(body, offset).Failure? ==> BindParams(body, offset).error == ShortBody
  {
    hide Signed32, Signed16, ReadParams;
    if UnpackIndex(|body|, offset, 2).Some? {
      var countOffset := offset + 2 + 2 * Int16At(body, UnpackIndex(|body|, offset, 2).value);
      var countAt := UnpackIndex(|body|, countOffset, 2);
      if countAt.Some? {
        var count := Int16At(body, countAt.value);
        ValuesNeverMalformed(body, countOffset + 2, if count < 0 then 0 else count);
      }
    }
  }

  lemma {:induction false} ValuesNeverMalformed(body: seq<Byte>, offset: int, n: nat)
    ensures ReadParams(body, offset, n).Failure? ==> ReadParams(body, offset, n).error == ShortBody
    decreases n
  {
    hide Signed32;
    if n > 0 && ReadParam(body, offset).Success? {
      ValuesNeverMalformed(body, ReadParam(body, offset).value.1, n - 1);
    }
  }
}
