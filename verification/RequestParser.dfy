/**
 The length-prefixed request format: a big-endian 32-bit payload length, then one big-endian 32-bit
 length and that many bytes for each string of the command.
 */
module RequestParser {
  import opened Basics

  type Byte = x: int | 0 <= x < 256

  type Bytes = seq<Byte>

  datatype Error = MessageSize | BadMessage
  datatype Result = Ok(cmd: seq<Bytes>) | Err(error: Error)

  // ---- 32-bit big-endian numbers ----

  const Limit: nat := 0x1_0000_0000

  function Be32(n: nat): (b: Bytes)
    requires n < Limit
    ensures |b| == 4
  {
    [n / 256 / 256 / 256, n / 256 / 256 % 256, n / 256 % 256, n % 256]
  }

  function FromBe32(b: Bytes): (n: nat)
    requires |b| >= 4
    ensures n < Limit
  {
    var b0: int, b1: int, b2: int, b3: int := b[0], b[1], b[2], b[3];
    ((b0 * 256 + b1) * 256 + b2) * 256 + b3
  }

  lemma NumberRoundTrip(n: nat, rest: Bytes)
    requires n < Limit
    ensures FromBe32(Be32(n) + rest) == n
  {
    assert n == n / 256 * 256 + n % 256;
    assert n / 256 == n / 256 / 256 * 256 + n / 256 % 256;
    assert n / 256 / 256 == n / 256 / 256 / 256 * 256 + n / 256 / 256 % 256;
  }

  /** Only the first four bytes count. */
  lemma FirstFour(a: Bytes, b: Bytes)
    requires |b| >= |a| >= 4 && a == b[..|a|]
    ensures FromBe32(a) == FromBe32(b)
  {
    assert a[0] == b[0] && a[1] == b[1] && a[2] == b[2] && a[3] == b[3];
  }

  lemma BytesRoundTrip(b: Bytes)
    requires |b| >= 4
    ensures Be32(FromBe32(b)) == b[..4]
  {
    var n := FromBe32(b);
    var b0: int, b1: int, b2: int := b[0], b[1], b[2];
    assert n / 256 == (b0 * 256 + b1) * 256 + b2;
    assert n / 256 / 256 == b0 * 256 + b1;
    assert n / 256 / 256 / 256 == b0;
  }

  // ---- the encoding ----

  /** Every string has a length that fits its field. */
  ghost predicate Short(cmd: seq<Bytes>) {
    forall i :: 0 <= i < |cmd| ==> |cmd[i]| < Limit
  }

  ghost predicate Encodable(cmd: seq<Bytes>) {
    Short(cmd) && |Payload(cmd)| < Limit
  }

  ghost function Payload(cmd: seq<Bytes>): (p: Bytes)
    requires Short(cmd)
  {
    if |cmd| == 0 then [] else Be32(|cmd[0]|) + cmd[0] + Payload(cmd[1..])
  }

  ghost function Encode(cmd: seq<Bytes>): (m: Bytes)
    requires Encodable(cmd)
  {
    Be32(|Payload(cmd)|) + Payload(cmd)
  }

  // ---- the payload reader, string by string ----

  function Cons(s: Bytes, rest: Result): (r: Result)
  {
    match rest
    case Ok(cmd) => Ok([s] + cmd)
    case Err(e) => Err(e)
  }

  function Read(p: Bytes): (r: Result)
  {
    if |p| == 0 then
      Ok([])
    else if |p| < 4 || FromBe32(p) > |p| - 4 then
      Err(BadMessage)
    else
      var n := FromBe32(p);
      Cons(p[4..4 + n], Read(p[4 + n..]))
  }

  lemma ReadOne(s: Bytes, rest: Bytes)
    requires |s| < Limit
    ensures Read(Be32(|s|) + s + rest) == Cons(s, Read(rest))
  {
    var p := Be32(|s|) + s + rest;
    assert p == Be32(|s|) + (s + rest);
    NumberRoundTrip(|s|, s + rest);
    assert p[4..4 + |s|] == s && p[4 + |s|..] == rest;
  }

  /** Reading undoes encoding. */
  lemma {:induction false} ReadPayload(cmd: seq<Bytes>)
    requires Short(cmd)
    ensures Read(Payload(cmd)) == Ok(cmd)
  {
    if |cmd| > 0 {
      ReadOne(cmd[0], Payload(cmd[1..]));
      ReadPayload(cmd[1..]);
      assert cmd == [cmd[0]] + cmd[1..];
    }
  }

  lemma EncodeOne(p: Bytes)
    requires |p| >= 4 && FromBe32(p) <= |p| - 4
    ensures Be32(|p[4..4 + FromBe32(p)]|) + p[4..4 + FromBe32(p)] + p[4 + FromBe32(p)..] == p
  {
    BytesRoundTrip(p);
    assert p == p[..4] + p[4..4 + FromBe32(p)] + p[4 + FromBe32(p)..];
  }

  /** What is read encodes to the bytes it was read from. */
  lemma {:induction false} PayloadOfRead(p: Bytes)
    requires Read(p).Ok?
    ensures Short(Read(p).cmd) && Payload(Read(p).cmd) == p
  {
    if |p| > 0 {
      var n := FromBe32(p);
      var cmd, rest := Read(p).cmd, Read(p[4 + n..]).cmd;
      PayloadOfRead(p[4 + n..]);
      assert cmd == [p[4..4 + n]] + rest;
      assert cmd[1..] == rest;
      assert forall i :: 1 <= i < |cmd| ==> cmd[i] == rest[i - 1];
      EncodeOne(p);
    }
  }

  // ---- the parser ----

  function Prepend(done: seq<Bytes>, rest: Result): (r: Result)
  {
    match rest
    case Ok(cmd) => Ok(done + cmd)
    case Err(e) => Err(e)
  }

  /** The declared payload fits in the data. */
  predicate Framed(data: Bytes) {
    |data| >= 4 && 4 + FromBe32(data) <= |data|
  }

  /** Reading in place, by position. */
  ghost function ReadAt(data: Bytes, pos: nat, end: nat): (r: Result)
    requires pos <= end <= |data|
    decreases end - pos
  {
    if pos == end then
      Ok([])
    else if end - pos < 4 || FromBe32(data[pos..]) > end - (pos + 4) then
      Err(BadMessage)
    else
      var next := pos + 4 + FromBe32(data[pos..]);
      Cons(data[pos + 4..next], ReadAt(data, next, end))
  }

  /** The length field and the two pieces, seen from the whole data and from the window. */
  lemma Window(data: Bytes, pos: nat, end: nat, n: nat)
    requires pos + 4 + n <= end <= |data| && n == FromBe32(data[pos..])
    ensures FromBe32(data[pos..end]) == n
    ensures data[pos..end][4..4 + n] == data[pos + 4..pos + 4 + n]
    ensures data[pos..end][4 + n..] == data[pos + 4 + n..end]
  {
    FirstFour(data[pos..end], data[pos..]);
  }

  lemma {:induction false} ReadAtIsRead(data: Bytes, pos: nat, end: nat)
    requires pos <= end <= |data|
    ensures ReadAt(data, pos, end) == Read(data[pos..end])
    decreases end - pos
  {
    if end - pos >= 4 {
      FirstFour(data[pos..end], data[pos..]);
      var n := FromBe32(data[pos..]);
      if n <= end - (pos + 4) {
        Window(data, pos, end, n);
        ReadAtIsRead(data, pos + 4 + n, end);
      }
    }
  }

  /** Whether `goal` is what was read so far followed by what is still to be read from `pos`. */
  ghost function Remaining(data: Bytes, pos: nat, end: nat, cmd: seq<Bytes>, goal: Result): (v: Verdict)
    requires pos <= end <= |data|
  {
    if forall x {:trigger Unfold(x)} :: Unfold(x) ==> goal == Prepend(cmd, ReadAt(data, pos, end)) then Holds else Fails
  }

  lemma BadString(data: Bytes, pos: nat, end: nat, cmd: seq<Bytes>, goal: Result)
    requires pos < end <= |data| && Remaining(data, pos, end, cmd, goal).Holds?
    requires end - pos < 4 || FromBe32(data[pos..]) > end - (pos + 4)
    ensures goal == Err(BadMessage)
  {
    assert Unfold(0);
  }

  lemma OneString(data: Bytes, pos: nat, end: nat, n: nat, cmd: seq<Bytes>, goal: Result)
    requires pos + 4 + n <= end <= |data| && n == FromBe32(data[pos..]) && Remaining(data, pos, end, cmd, goal).Holds?
    ensures Remaining(data, pos + 4 + n, end, cmd + [data[pos + 4..pos + 4 + n]], goal).Holds?
  {
    assert Unfold(0);
    PrependMore(cmd, data[pos + 4..pos + 4 + n], ReadAt(data, pos + 4 + n, end));
  }

  /** The loop over the payload `data[4..end]`. */
  method ParsePayload(data: Bytes, end: nat) returns (r: Result)
    requires 4 <= end <= |data|
    ensures r == ReadAt(data, 4, end)
  {
    var cmd: seq<Bytes> := [];
    var pos := 4;
    ghost var goal := ReadAt(data, 4, end);
    while pos < end
      invariant 4 <= pos <= end && Remaining(data, pos, end, cmd, goal).Holds?
    {
      if end - pos < 4 {
        BadString(data, pos, end, cmd, goal);
        return Err(BadMessage);
      }
      var n := FromBe32(data[pos..]);
      if n > end - (pos + 4) {
        BadString(data, pos, end, cmd, goal);
        return Err(BadMessage);
      }
      OneString(data, pos, end, n, cmd, goal);
      pos := pos + 4;
      cmd := cmd + [data[pos..pos + n]];
      pos := pos + n;
    }
    r := Ok(cmd);
    assert Unfold(0);
  }

  lemma PrependMore(done: seq<Bytes>, s: Bytes, rest: Result)
    ensures Prepend(done, Cons(s, rest)) == Prepend(done + [s], rest)
  {
    if rest.Ok? {
      assert done + ([s] + rest.cmd) == done + [s] + rest.cmd;
    }
  }

  /**
   `RequestParser::parse`.  The result is `cmd` exactly when the data starts with the encoding of
   `cmd`; a frame that does not fit is a size error, and a payload that encodes nothing a bad message.
   */
  method Parse(data: Bytes) returns (r: Result)
    ensures r == Err(MessageSize) <==> !Framed(data)
    ensures forall cmd :: r == Ok(cmd) <==> Encodable(cmd) && Encode(cmd) <= data
    ensures r == Err(BadMessage) <==> Framed(data) && !exists cmd :: Encodable(cmd) && Encode(cmd) <= data
  {
    if |data| < 4 {
      NotFramed(data);
      return Err(MessageSize);
    }
    var len := FromBe32(data);
    if 4 + len > |data| {
      NotFramed(data);
      return Err(MessageSize);
    }
    r := ParsePayload(data, 4 + len);
    ReadAtIsRead(data, 4, 4 + len);
    forall cmd
      ensures r == Ok(cmd) <==> Encodable(cmd) && Encode(cmd) <= data
    {
      ParsedExactly(data, cmd);
    }
    ReadErrors(data[4..4 + len]);
    if r.Ok? {
      assert Encodable(r.cmd) && Encode(r.cmd) <= data;
    }
  }

  lemma {:induction false} ReadErrors(p: Bytes)
    ensures Read(p).Ok? || Read(p) == Err(BadMessage)
  {
    if |p| >= 4 && FromBe32(p) <= |p| - 4 {
      ReadErrors(p[4 + FromBe32(p)..]);
    }
  }

  /** Every encoding is framed. */
  lemma EncodedIsFramed(cmd: seq<Bytes>, data: Bytes)
    requires Encodable(cmd) && Encode(cmd) <= data
    ensures Framed(data) && data[4..4 + FromBe32(data)] == Payload(cmd)
  {
    var p := Payload(cmd);
    var tail := data[|Encode(cmd)|..];
    assert data == Be32(|p|) + (p + tail);
    NumberRoundTrip(|p|, p + tail);
  }

  lemma NotFramed(data: Bytes)
    requires !Framed(data)
    ensures forall cmd :: !(Encodable(cmd) && Encode(cmd) <= data)
  {
    forall cmd | Encodable(cmd) && Encode(cmd) <= data
      ensures false
    {
      EncodedIsFramed(cmd, data);
    }
  }

  /** What is accepted encodes again to the frame it came from. */
  lemma AcceptedReencodes(data: Bytes, cmd: seq<Bytes>)
    requires Framed(data) && Read(data[4..4 + FromBe32(data)]) == Ok(cmd)
    ensures Encodable(cmd) && Encode(cmd) == data[..4 + FromBe32(data)]
  {
    var n := FromBe32(data);
    PayloadOfRead(data[4..4 + n]);
    BytesRoundTrip(data);
    assert data[..4] + data[4..4 + n] == data[..4 + n];
  }

  lemma ParsedExactly(data: Bytes, cmd: seq<Bytes>)
    requires Framed(data)
    ensures Read(data[4..4 + FromBe32(data)]) == Ok(cmd) <==> Encodable(cmd) && Encode(cmd) <= data
  {
    if Read(data[4..4 + FromBe32(data)]) == Ok(cmd) {
      AcceptedReencodes(data, cmd);
    }
    if Encodable(cmd) && Encode(cmd) <= data {
      EncodedIsFramed(cmd, data);
      ReadPayload(cmd);
    }
  }

  /** No two commands share an encoding, even as prefixes of the same data. */
  lemma EncodingIsPrefixFree(a: seq<Bytes>, b: seq<Bytes>, data: Bytes)
    requires Encodable(a) && Encodable(b) && Encode(a) <= data && Encode(b) <= data
    ensures a == b
  {
    EncodedIsFramed(a, data);
    ParsedExactly(data, a);
    ParsedExactly(data, b);
  }
}
