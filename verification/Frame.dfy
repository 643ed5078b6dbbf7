/** The binary response frame of `send_response_raw` in `src/server.rs`. */
module Frame {
  import opened Wrappers
  import Pending
  import Requests
  import opened Sequences

  type Byte = b: int | 0 <= b < 256

  type Bytes = seq<Byte>

  /** A decoded response; header names and values alternate in `headers`, as bytes of valid UTF-8. */
  datatype Response = Response(status: nat, headers: seq<Bytes>, body: Option<Bytes>)

  /** Which byte strings are valid UTF-8. */
  type Utf8 = Bytes -> bool

  // ---- Little-endian numbers ----

  function Le16(n: nat): (b: Bytes)
    requires n < 0x1_0000
    ensures |b| == 2
  {
    [n % 0x100, n / 0x100]
  }

  function Le32(n: nat): (b: Bytes)
    requires n < 0x1_0000_0000
    ensures |b| == 4
  {
    Le16(n % 0x1_0000) + Le16(n / 0x1_0000)
  }

  function FromLe16(b: Bytes): (n: nat)
    requires |b| == 2
    ensures n < 0x1_0000
  {
    var low: int, high: int := b[0], b[1];
    low + 0x100 * high
  }

  function FromLe32(b: Bytes): (n: nat)
    requires |b| == 4
    ensures n < 0x1_0000_0000
  {
    FromLe16(b[..2]) + 0x1_0000 * FromLe16(b[2..])
  }

  lemma Inverse16(n: nat, b: Bytes)
    ensures n < 0x1_0000 ==> FromLe16(Le16(n)) == n
    ensures |b| == 2 ==> Le16(FromLe16(b)) == b
  {
  }

  lemma Halves(n: nat, low: nat, high: nat)
    requires low < 0x1_0000
    ensures n == low + 0x1_0000 * high <==> low == n % 0x1_0000 && high == n / 0x1_0000
  {
  }

  lemma Inverse32(n: nat, b: Bytes)
    ensures n < 0x1_0000_0000 ==> FromLe32(Le32(n)) == n
    ensures |b| == 4 ==> Le32(FromLe32(b)) == b
  {
    hide Le16, FromLe16;
    if n < 0x1_0000_0000 {
      Inverse16(n % 0x1_0000, []);
      Inverse16(n / 0x1_0000, []);
      assert Le32(n)[..2] == Le16(n % 0x1_0000) && Le32(n)[2..] == Le16(n / 0x1_0000);
      Halves(n, n % 0x1_0000, n / 0x1_0000);
    }
    if |b| == 4 {
      Inverse16(0, b[..2]);
      Inverse16(0, b[2..]);
      Halves(FromLe32(b), FromLe16(b[..2]), FromLe16(b[2..]));
      assert b == b[..2] + b[2..];
    }
  }

  // ---- The layout ----

  ghost predicate Encodable(headers: seq<Bytes>, utf8: Utf8) {
    forall s :: s in headers ==> |s| < 0x1_0000_0000 && utf8(s)
  }

  /** Each string behind its length. */
  ghost function Packed(headers: seq<Bytes>): Bytes {
    if headers == [] then [] else
      (if |headers[0]| < 0x1_0000_0000 then Le32(|headers[0]|) else []) + headers[0] + Packed(headers[1..])
  }

  /** The header section: the number of strings, the strings, and bytes that nobody reads. */
  ghost function Section(headers: seq<Bytes>, slack: Bytes): Bytes
    requires |headers| < 0x1_0000_0000
  {
    Le32(|headers|) + Packed(headers) + slack
  }

  ghost function Layout(status: nat, headers: seq<Bytes>, slack: Bytes, body: Bytes): Bytes
    requires status < 0x1_0000 && |headers| < 0x1_0000_0000 && |Section(headers, slack)| < 0x1_0000_0000
  {
    Le16(status) + Le32(|Section(headers, slack)|) + Section(headers, slack) + body
  }

  // ---- Decoding ----

  /** The first `n` strings of `h`, and what is left. */
  function Strings(h: Bytes, n: nat, utf8: Utf8): Option<(seq<Bytes>, Bytes)>
    decreases n
  {
    if n == 0 then Some(([], h))
    else if |h| < 4 then None
    else
      var len := FromLe32(h[..4]);
      if 4 + len > |h| || !utf8(h[4..4 + len]) then None
      else
        match Strings(h[4 + len..], n - 1, utf8)
        case None => None
        case Some((rest, left)) => Some(([h[4..4 + len]] + rest, left))
  }

  function Decode(data: Bytes, utf8: Utf8): Option<Response> {
    if |data| < 6 then None
    else
      var size := FromLe32(data[2..6]);
      if |data| < 6 + size || size < 4 then None
      else
        match Strings(data[10..6 + size], FromLe32(data[6..10]), utf8)
        case None => None
        case Some((headers, _)) =>
          Some(Response(FromLe16(data[..2]), headers, if |data| > 6 + size then Some(data[6 + size..]) else None))
  }

  /** The head of packed strings. */
  lemma PackedHead(s: Bytes, tail: Bytes)
    requires |s| < 0x1_0000_0000
    ensures var h := Le32(|s|) + s + tail;
            |h| >= 4 && FromLe32(h[..4]) == |s| && 4 + |s| <= |h| && h[4..4 + |s|] == s && h[4 + |s|..] == tail
  {
    var h := Le32(|s|) + s + tail;
    Inverse32(|s|, []);
    hide Le32, FromLe32, Le16, FromLe16;
    assert h[..4] == Le32(|s|);
  }

  lemma PackedCons(s: Bytes, rest: seq<Bytes>, left: Bytes)
    requires |s| < 0x1_0000_0000
    ensures Packed([s] + rest) + left == Le32(|s|) + s + (Packed(rest) + left)
  {
    assert ([s] + rest)[1..] == rest;
    Associate(Le32(|s|) + s, Packed(rest), left);
  }

  lemma StringsCons(s: Bytes, tail: Bytes, n: nat, utf8: Utf8)
    requires |s| < 0x1_0000_0000 && utf8(s)
    ensures Strings(Le32(|s|) + s + tail, n + 1, utf8) == Before([s], Strings(tail, n, utf8))
  {
    PackedHead(s, tail);
  }

  /** Strings laid out are read back. */
  lemma {:induction false} PackedRead(utf8: Utf8, headers: seq<Bytes>, left: Bytes)
    requires Encodable(headers, utf8)
    ensures Strings(Packed(headers) + left, |headers|, utf8) == Some((headers, left))
  {
    if headers == [] {
      assert Packed([]) + left == left;
    } else {
      hide Strings, Packed, Le32;
      var s, rest := headers[0], headers[1..];
      assert s in headers && headers == [s] + rest;
      PackedRead(utf8, rest, left);
      PackedCons(s, rest, left);
      StringsCons(s, Packed(rest) + left, |rest|, utf8);
    }
  }

  /** One string of `Strings`, read at a position of a longer text. */
  lemma StringsStep(h: Bytes, pos: nat, n: nat, utf8: Utf8)
    requires pos <= |h|
    ensures Strings(h[pos..], 0, utf8) == Some(([], h[pos..]))
    ensures n > 0 ==>
              Strings(h[pos..], n, utf8) ==
                if pos + 4 > |h| then None
                else
                  var len := FromLe32(h[pos..pos + 4]);
                  if pos + 4 + len > |h| || !utf8(h[pos + 4..pos + 4 + len]) then None
                  else Before([h[pos + 4..pos + 4 + len]], Strings(h[pos + 4 + len..], n - 1, utf8))
  {
    if n > 0 && pos + 4 <= |h| {
      var t := h[pos..];
      assert t[..4] == h[pos..pos + 4];
      var len := FromLe32(t[..4]);
      if 4 + len <= |t| {
        assert t[4..4 + len] == h[pos + 4..pos + 4 + len] && t[4 + len..] == h[pos + 4 + len..];
      }
    }
  }

  lemma ReadHead(h: Bytes, n: nat, utf8: Utf8) returns (s: Bytes, t: Bytes)
    requires n > 0 && Strings(h, n, utf8).Some?
    ensures |s| < 0x1_0000_0000 && utf8(s) && h == Le32(|s|) + s + t
    ensures Strings(h, n, utf8) == Before([s], Strings(t, n - 1, utf8))
  {
    var len := FromLe32(h[..4]);
    s, t := h[4..4 + len], h[4 + len..];
    Inverse32(0, h[..4]);
    hide Le32, FromLe32;
    assert h == h[..4] + s + t;
  }

  /** And strings read were laid out. */
  lemma {:induction false} ReadPacked(h: Bytes, n: nat, utf8: Utf8)
    requires Strings(h, n, utf8).Some?
    ensures var (headers, left) := Strings(h, n, utf8).value;
            |headers| == n && Encodable(headers, utf8) && h == Packed(headers) + left
    decreases n
  {
    if n == 0 {
      assert Packed([]) + h == h;
    } else {
      var s, t := ReadHead(h, n, utf8);
      hide Strings, Packed, Le32;
      ReadPacked(t, n - 1, utf8);
      var (rest, left) := Strings(t, n - 1, utf8).value;
      PackedCons(s, rest, left);
    }
  }

  /** What an accepted frame is made of. */
  lemma Accepted(data: Bytes, utf8: Utf8)
    requires Decode(data, utf8).Some?
    ensures |data| >= 10
    ensures var r := Decode(data, utf8).value;
            var size, count := FromLe32(data[2..6]), FromLe32(data[6..10]);
            && 4 <= size && 6 + size <= |data|
            && Strings(data[10..6 + size], count, utf8).Some?
            && r.headers == Strings(data[10..6 + size], count, utf8).value.0
            && r.status == FromLe16(data[..2])
            && r.body == if |data| > 6 + size then Some(data[6 + size..]) else None
  {
  }

  lemma Accepts(data: Bytes, utf8: Utf8)
    requires |data| >= 10
    requires var size, count := FromLe32(data[2..6]), FromLe32(data[6..10]);
             4 <= size && 6 + size <= |data| && Strings(data[10..6 + size], count, utf8).Some?
    ensures var size, count := FromLe32(data[2..6]), FromLe32(data[6..10]);
            Decode(data, utf8) == Some(Response(FromLe16(data[..2]), Strings(data[10..6 + size], count, utf8).value.0,
                                                if |data| > 6 + size then Some(data[6 + size..]) else None))
  {
  }

  lemma SectionParts(headers: seq<Bytes>, slack: Bytes)
    requires |headers| < 0x1_0000_0000
    ensures var t := Section(headers, slack);
            |t| >= 4 && t[..4] == Le32(|headers|) && t[4..] == Packed(headers) + slack
  {
    hide Le32, Packed;
    Associate(Le32(|headers|), Packed(headers), slack);
  }

  lemma FrameParts(a: Bytes, b: Bytes, section: Bytes, body: Bytes)
    requires |a| == 2 && |b| == 4 && |section| >= 4
    ensures var t := a + b + section + body;
            && t[..2] == a && t[2..6] == b && t[6..10] == section[..4] && t[10..6 + |section|] == section[4..]
            && t[6 + |section|..] == body
  {
  }

  /** Decoding inverts the layout; an empty body comes back absent. */
  lemma LayoutDecodes(status: nat, headers: seq<Bytes>, slack: Bytes, body: Bytes, utf8: Utf8)
    requires status < 0x1_0000 && |headers| < 0x1_0000_0000 && |Section(headers, slack)| < 0x1_0000_0000
    requires Encodable(headers, utf8)
    ensures Decode(Layout(status, headers, slack, body), utf8) ==
            Some(Response(status, headers, if body == [] then None else Some(body)))
  {
    var section := Section(headers, slack);
    var data := Layout(status, headers, slack, body);
    Inverse32(|section|, []);
    Inverse32(|headers|, []);
    Inverse16(status, []);
    PackedRead(utf8, headers, slack);
    SectionParts(headers, slack);
    FrameParts(Le16(status), Le32(|section|), section, body);
    hide Le32, Le16, FromLe32, FromLe16, Packed, Strings, Decode, Section;
    Accepts(data, utf8);
  }

  lemma SectionRead(data: Bytes, size: nat, headers: seq<Bytes>, slack: Bytes)
    requires 4 <= size && 6 + size <= |data| && |headers| < 0x1_0000_0000
    requires data[6..10] == Le32(|headers|) && data[10..6 + size] == Packed(headers) + slack
    ensures data[6..6 + size] == Section(headers, slack)
  {
    hide Le32, Packed;
    assert data[6..6 + size] == data[6..10] + data[10..6 + size];
    Associate(Le32(|headers|), Packed(headers), slack);
  }

  /** Whatever decodes is a layout of what it decodes to. */
  lemma DecodedIsLayout(data: Bytes, utf8: Utf8) returns (slack: Bytes)
    requires Decode(data, utf8).Some?
    ensures var r := Decode(data, utf8).value;
            && r.status < 0x1_0000 && |r.headers| < 0x1_0000_0000 && |Section(r.headers, slack)| < 0x1_0000_0000
            && Encodable(r.headers, utf8) && r.body != Some([])
            && data == Layout(r.status, r.headers, slack, if r.body.Some? then r.body.value else [])
  {
    hide Decode, Packed, Strings, Le32, FromLe32, Le16, FromLe16, Section, Encodable;
    Accepted(data, utf8);
    var r := Decode(data, utf8).value;
    var size, count := FromLe32(data[2..6]), FromLe32(data[6..10]);
    Inverse16(0, data[..2]);
    Inverse32(0, data[2..6]);
    Inverse32(0, data[6..10]);
    ReadPacked(data[10..6 + size], count, utf8);
    slack := Strings(data[10..6 + size], count, utf8).value.1;
    SectionRead(data, size, r.headers, slack);
    Cut(data, size);
  }

  lemma Cut(data: Bytes, size: nat)
    requires |data| >= 6 + size
    ensures data == data[..2] + data[2..6] + data[6..6 + size] + data[6 + size..]
  {
  }

  // ---- Frames byte by byte ----

  /** The first byte counts least. */
  lemma LittleEndian(a: Byte, b: Byte, c: Byte, d: Byte)
    ensures FromLe16([a, b]) == a + 256 * b
    ensures FromLe32([a, b, c, d]) == a + 256 * b + 65536 * c + 16777216 * d
  {
    assert [a, b, c, d][..2] == [a, b] && [a, b, c, d][2..] == [c, d];
  }

  /** A frame without headers: two bytes of status, the length 4 of the header section, the number 0 of its strings, and
      the body behind. */
  lemma BareFrame(a: Byte, b: Byte, body: Bytes, utf8: Utf8)
    ensures Decode([a, b] + [4, 0, 0, 0] + [0, 0, 0, 0] + body, utf8) ==
            Some(Response(a + 256 * b, [], if body == [] then None else Some(body)))
  {
    var data: Bytes := [a, b] + [4, 0, 0, 0] + [0, 0, 0, 0] + body;
    LittleEndian(a, b, 0, 0);
    LittleEndian(4, 0, 0, 0);
    LittleEndian(0, 0, 0, 0);
    FrameParts([a, b], [4, 0, 0, 0], [0, 0, 0, 0], body);
    assert data[10..10] == [];
    assert [0, 0, 0, 0][..4] == [0, 0, 0, 0];
    hide FromLe16, FromLe32;
    Accepts(data, utf8);
  }

  /** One header, name and value each behind a length of four bytes. */
  lemma FrameWithOneHeader(a: Byte, b: Byte, name: Bytes, value: Bytes, body: Bytes, utf8: Utf8)
    requires |name| < 100 && |value| < 100 && utf8(name) && utf8(value)
    ensures Decode([a, b] + [12 + |name| + |value|, 0, 0, 0] +
                   ([2, 0, 0, 0] + ([|name|, 0, 0, 0] + name + ([|value|, 0, 0, 0] + value))) + body, utf8) ==
            Some(Response(a + 256 * b, [name, value], if body == [] then None else Some(body)))
  {
    hide FromLe16, FromLe32, Strings;
    var size: Byte, n: Byte, v: Byte := 12 + |name| + |value|, |name|, |value|;
    var strings: Bytes := [n, 0, 0, 0] + name + ([v, 0, 0, 0] + value);
    var data: Bytes := [a, b] + [size, 0, 0, 0] + ([2, 0, 0, 0] + strings) + body;
    LittleEndian(a, b, 0, 0);
    LittleEndian(size, 0, 0, 0);
    LittleEndian(2, 0, 0, 0);
    FrameParts([a, b], [size, 0, 0, 0], [2, 0, 0, 0] + strings, body);
    assert ([2, 0, 0, 0] + strings)[..4] == [2, 0, 0, 0] && ([2, 0, 0, 0] + strings)[4..] == strings;
    TwoStrings(name, value, utf8);
    Accepts(data, utf8);
  }

  lemma TwoStrings(name: Bytes, value: Bytes, utf8: Utf8)
    requires |name| < 100 && |value| < 100 && utf8(name) && utf8(value)
    ensures Strings([|name|, 0, 0, 0] + name + ([|value|, 0, 0, 0] + value), 2, utf8) == Some(([name, value], []))
  {
    hide Strings;
    var v: Byte := |value|;
    OneStringMore(name, [v, 0, 0, 0] + value, 1, utf8);
    OneStringMore(value, [], 0, utf8);
    NoStrings(utf8);
    assert [v, 0, 0, 0] + value + [] == [v, 0, 0, 0] + value;
    assert [name] + ([value] + []) == [name, value];
  }

  lemma NoStrings(utf8: Utf8)
    ensures Strings([], 0, utf8) == Some(([], []))
  {
  }

  lemma OneStringMore(s: Bytes, tail: Bytes, n: nat, utf8: Utf8)
    requires |s| < 100 && utf8(s)
    ensures Strings([|s|, 0, 0, 0] + s + tail, n + 1, utf8) == Before([s], Strings(tail, n, utf8))
  {
    var length: Byte := |s|;
    LittleEndian(length, 0, 0, 0);
    var h: Bytes := [length, 0, 0, 0] + s + tail;
    assert h[..4] == [length, 0, 0, 0];
    assert h[4..4 + |s|] == s && h[4 + |s|..] == tail;
  }

  // ---- The code ----

  /** The loop over the strings of the header section, behind their number. */
  method ReadStrings(headerData: Bytes, numStrings: nat, utf8: Utf8) returns (r: Option<seq<Bytes>>)
    requires |headerData| >= 4
    ensures var whole := Strings(headerData[4..], numStrings, utf8);
            r == if whole.None? then None else Some(whole.value.0)
  {
    hide FromLe32, Strings, Before;
    ghost var whole := Strings(headerData[4..], numStrings, utf8);
    var strings: seq<Bytes> := [];
    var pos := 4;
    BeforeNothing(whole);
    for i := 0 to numStrings
      invariant 4 <= pos <= |headerData|
      invariant whole == Before(strings, Strings(headerData[pos..], numStrings - i, utf8))
    {
      StringsStep(headerData, pos, numStrings - i, utf8);
      BeforeNone(strings);
      if pos + 4 > |headerData| {
        return None;
      }
      var len := FromLe32(headerData[pos..pos + 4]);
      pos := pos + 4;
      if pos + len > |headerData| {
        return None;
      }
      if !utf8(headerData[pos..pos + len]) {
        return None;
      }
      BeforeStep(strings, headerData[pos..pos + len], Strings(headerData[pos + len..], numStrings - i - 1, utf8));
      strings := strings + [headerData[pos..pos + len]];
      pos := pos + len;
    }
    StringsStep(headerData, pos, 0, utf8);
    BeforeAll(strings, headerData[pos..]);
    return Some(strings);
  }

  method DecodeFrame(data: Bytes, utf8: Utf8) returns (response: Option<Response>)
    ensures response == Decode(data, utf8)
  {
    if |data| < 6 {
      return None;
    }
    var status := FromLe16(data[..2]);
    var headerSize := FromLe32(data[2..6]);
    if |data| < 6 + headerSize {
      return None;
    }
    var headerData := data[6..6 + headerSize];
    if |headerData| < 4 {
      return None;
    }
    assert headerData[..4] == data[6..10] && headerData[4..] == data[10..6 + headerSize];
    var numStrings := FromLe32(headerData[..4]);
    var headers := ReadStrings(headerData, numStrings, utf8);
    if headers.None? {
      return None;
    }
    var bodyStart := 6 + headerSize;
    var body := if |data| > bodyStart then Some(data[bodyStart..]) else None;
    return Some(Response(status, headers.value, body));
  }

  /** A rejected frame leaves the tables alone; an accepted one answers its request like the other send calls. */
  method SendResponseRaw(table: Requests.Table, requestId: Pending.Id, data: Bytes, utf8: Utf8)
    returns (response: Option<Response>, target: Option<Pending.Serial>)
    modifies table`pending, table`requestAddrs
    ensures response == Decode(data, utf8)
    ensures response.None? ==> target == None && table.pending == old(table.pending) && table.requestAddrs == old(table.requestAddrs)
    ensures response.Some? ==>
              && table.pending == old(table.pending) - {requestId} && table.requestAddrs == old(table.requestAddrs) - {requestId}
              && target == if requestId in old(table.pending) then Some(old(table.pending)[requestId]) else None
  {
    target := None;
    response := DecodeFrame(data, utf8);
    if response.Some? {
      target := table.SendResponse(requestId);
    }
  }

  /** Strings already read, in front of the ones still to come. */
  function Before(headers: seq<Bytes>, rest: Option<(seq<Bytes>, Bytes)>): Option<(seq<Bytes>, Bytes)> {
    match rest
    case None => None
    case Some((more, left)) => Some((headers + more, left))
  }

  lemma BeforeNone(headers: seq<Bytes>)
    ensures Before(headers, None) == None
  {
  }

  lemma BeforeAll(headers: seq<Bytes>, left: Bytes)
    ensures Before(headers, Some(([], left))) == Some((headers, left))
  {
    assert headers + [] == headers;
  }

  lemma BeforeNothing(rest: Option<(seq<Bytes>, Bytes)>)
    ensures Before([], rest) == rest
  {
    if rest.Some? {
      assert [] + rest.value.0 == rest.value.0;
    }
  }

  lemma BeforeStep(headers: seq<Bytes>, s: Bytes, rest: Option<(seq<Bytes>, Bytes)>)
    ensures Before(headers, Before([s], rest)) == Before(headers + [s], rest)
  {
    if rest.Some? {
      assert headers + ([s] + rest.value.0) == headers + [s] + rest.value.0;
    }
  }
}
