/** The WebSocket transport of content/cdp_websocket_client.cc: framing and masking as in sections 5.2, 5.3
    and 5.5 of RFC 6455, over a socket whose `send` and `recv` may move any number of bytes. */
module WebSocketCodec {

  import opened Bits
  import opened Division

  const MAX_PAYLOAD: nat := 1048576
  const SIZE_LIMIT: nat := 0x1_0000_0000_0000_0000

  type Mask = m: seq<Byte> | |m| == 4 witness [0, 0, 0, 0]

  // --- The socket --------------------------------------------------------------------------------------

  /** A connected stream socket.  `incoming` is everything the peer will still deliver before it closes,
      `outgoing` everything handed to the peer.  An unreliable socket may fail or time out at any call. */
  class Socket {
    var incoming: seq<Byte>
    var outgoing: seq<Byte>
    var closes: nat
    const reliable: bool

    constructor (incoming: seq<Byte>, reliable: bool)
      ensures this.incoming == incoming && this.outgoing == [] && this.closes == 0 && this.reliable == reliable
    {
      this.incoming, this.outgoing, this.closes, this.reliable := incoming, [], 0, reliable;
    }

    /** `send`: moves some non-empty prefix of `data`, or fails. */
    method Send(data: seq<Byte>) returns (n: int)
      requires closes == 0 && data != []
      modifies this`outgoing
      ensures n <= |data| && (reliable ==> n > 0)
      ensures outgoing == old(outgoing) + if n > 0 then data[..n] else []
    {
      if {
        case true =>
          n :| 1 <= n <= |data|;
          outgoing := outgoing + data[..n];
        case !reliable =>
          n :| -1 <= n <= 0;
      }
    }

    /** `recv`: moves some non-empty prefix of at most `limit` bytes; 0 or less at the end of the stream or on
        failure. */
    method Recv(limit: nat) returns (n: int, data: seq<Byte>)
      requires closes == 0 && limit > 0
      modifies this`incoming
      ensures n <= limit && n <= |old(incoming)|
      ensures n > 0 ==> data == old(incoming)[..n] && incoming == old(incoming)[n..]
      ensures n <= 0 ==> incoming == old(incoming) && (reliable ==> incoming == [])
    {
      data := [];
      if {
        case incoming != [] =>
          n :| 1 <= n <= limit && n <= |incoming|;
          data, incoming := incoming[..n], incoming[n..];
        case incoming == [] =>
          n := 0;
        case !reliable =>
          n :| -1 <= n <= 0;
      }
    }

    method Close()
      modifies this`closes
      ensures closes == old(closes) + 1
    {
      closes := closes + 1;
    }
  }

  /** `SendAll`: true exactly when the whole buffer went out; otherwise a proper prefix did. */
  method SendAll(sock: Socket, buffer: seq<Byte>) returns (ok: bool)
    requires sock.closes == 0
    modifies sock`outgoing
    ensures sock.reliable ==> ok
    ensures ok ==> sock.outgoing == old(sock.outgoing) + buffer
    ensures !ok ==> exists k :: 0 <= k < |buffer| && sock.outgoing == old(sock.outgoing) + buffer[..k]
  {
    var total := 0;
    while total < |buffer|
      invariant 0 <= total <= |buffer|
      invariant sock.outgoing == old(sock.outgoing) + buffer[..total]
    {
      var n := sock.Send(buffer[total..]);
      if n <= 0 {
        return false;
      }
      assert buffer[..total] + buffer[total..][..n] == buffer[..total + n];
      total := total + n;
    }
    return true;
  }

  /** `RecvAll`: fills the buffer with the next bytes of the stream, whatever the chunking.  On failure it has
      consumed fewer bytes than asked; over a reliable socket that is the whole rest of the stream. */
  method RecvAll(sock: Socket, buffer: array<Byte>) returns (ok: bool)
    requires sock.closes == 0
    modifies sock`incoming, buffer
    ensures ok ==> buffer.Length <= |old(sock.incoming)|
    ensures ok ==> buffer[..] == old(sock.incoming)[..buffer.Length]
    ensures ok ==> sock.incoming == old(sock.incoming)[buffer.Length..]
    ensures !ok ==> Suffix(sock.incoming, old(sock.incoming))
    ensures sock.reliable ==> ok == (buffer.Length <= |old(sock.incoming)|)
    ensures sock.reliable && !ok ==> sock.incoming == []
  {
    ghost var stream := sock.incoming;
    var total := 0;
    while total < buffer.Length
      invariant 0 <= total <= buffer.Length && total <= |stream|
      invariant sock.incoming == stream[total..]
      invariant buffer[..total] == stream[..total]
    {
      var n, data := sock.Recv(buffer.Length - total);
      if n <= 0 {
        assert Suffix(stream[total..], stream);
        return false;
      }
      forall i | 0 <= i < n {
        buffer[total + i] := data[i];
      }
      assert stream[..total + n] == stream[..total] + stream[total..][..n];
      assert buffer[..total + n] == buffer[..total] + data;
      assert stream[total..][n..] == stream[total + n..];
      total := total + n;
    }
    assert buffer[..] == buffer[..total];
    return true;
  }

  ghost predicate Suffix(t: seq<Byte>, s: seq<Byte>) {
    |t| <= |s| && t == s[|s| - |t|..]
  }

  lemma SuffixTransitive(a: seq<Byte>, b: seq<Byte>, c: seq<Byte>)
    requires Suffix(a, b) && Suffix(b, c)
    ensures Suffix(a, c)
  {
  }

  lemma SuffixDrop(s: seq<Byte>, k: nat)
    requires k <= |s|
    ensures Suffix(s[k..], s)
  {
  }

  // --- Lengths, big-endian numbers, masking ----------------------------------------------------------

  ghost function Pow256(k: nat): (p: nat)
    ensures p > 0
  {
    if k == 0 then 1 else 256 * Pow256(k - 1)
  }

  /** The low `k` bytes of `n`, most significant first. */
  function BigEndian(n: nat, k: nat): (bytes: seq<Byte>)
    ensures |bytes| == k
  {
    if k == 0 then [] else BigEndian(n / 256, k - 1) + [n % 256]
  }

  function FromBigEndian(bytes: seq<Byte>): nat {
    if bytes == [] then 0 else 256 * FromBigEndian(bytes[..|bytes| - 1]) + bytes[|bytes| - 1]
  }

  lemma {:induction false} BigEndianRoundTrip(n: nat, k: nat)
    requires n < Pow256(k)
    ensures FromBigEndian(BigEndian(n, k)) == n
  {
    if k > 0 {
      BigEndianRoundTrip(n / 256, k - 1);
      var bytes := BigEndian(n, k);
      assert bytes[..k - 1] == BigEndian(n / 256, k - 1);
    }
  }

  /** Byte i of k is the digit of weight 256^(k - 1 - i): the most significant comes first. */
  lemma {:induction false} BigEndianDigit(n: nat, k: nat, i: nat)
    requires i < k
    ensures BigEndian(n, k)[i] == n / Pow256(k - 1 - i) % 256
  {
    if i == k - 1 {
    } else {
      BigEndianDigit(n / 256, k - 1, i);
      DivideTwice(n, Pow256(k - 2 - i));
    }
  }

  lemma DivideTwice(n: nat, p: nat)
    requires p > 0
    ensures n / 256 / p == n / (256 * p)
  {
    var q, r := n / 256 / p, n / 256 % p;
    assert n / 256 == p * q + r;
    assert 256 * (p * q) == (256 * p) * q;
    assert n == q * (256 * p) + (256 * r + n % 256);
    ResidueUnique(n, 256 * p, q, 256 * r + n % 256);
  }

  lemma {:induction false} FromBigEndianBound(bytes: seq<Byte>)
    ensures FromBigEndian(bytes) < Pow256(|bytes|)
  {
    if bytes != [] {
      FromBigEndianBound(bytes[..|bytes| - 1]);
    }
  }

  lemma Pow256Values()
    ensures Pow256(1) == 256 && Pow256(2) == 65536 && Pow256(8) == SIZE_LIMIT
  {
    assert Pow256(4) == 0x1_0000_0000;
    assert Pow256(6) == 0x1_0000_0000_0000;
  }

  /** The length bytes of section 5.2: 7 bits, 7 + 16 bits or 7 + 64 bits, with the mask bit in the first. */
  function LengthField(masked: bool, len: nat): (field: seq<Byte>)
    ensures |field| == if len <= 125 then 1 else if len <= 65535 then 3 else 9
  {
    var bit := if masked then 0x80 else 0;
    if len <= 125 then [bit + len]
    else if len <= 65535 then [bit + 126] + BigEndian(len, 2)
    else [bit + 127] + BigEndian(len, 8)
  }

  function XorByte(a: Byte, b: Byte): Byte {
    XorIsByte(a, b);
    Xor(a, b)
  }

  lemma XorIsByte(a: Byte, b: Byte)
    ensures 0 <= Xor(a, b) < 256
  {
    assert Pow2(8) == 256;
    XorBound(a, b, 8);
  }

  /** Each byte xored with the repeating mask. */
  function Masked(data: seq<Byte>, mask: Mask): (r: seq<Byte>)
    ensures |r| == |data|
  {
    seq(|data|, i requires 0 <= i < |data| => XorByte(data[i], mask[i % 4]))
  }

  lemma MaskTwice(data: seq<Byte>, mask: Mask)
    ensures Masked(Masked(data, mask), mask) == data
  {
    forall i | 0 <= i < |data| ensures Masked(Masked(data, mask), mask)[i] == data[i] {
      XorCancels(data[i], mask[i % 4]);
    }
  }

  // --- Frames on the wire ------------------------------------------------------------------------------

  datatype MaskBit = Unmasked | MaskedBy(mask: Mask)

  /** A frame as a peer may send it: its first byte (FIN, reserved bits, opcode), its mask and its payload. */
  datatype WireFrame = WireFrame(first: Byte, masking: MaskBit, payload: seq<Byte>) {
    function Opcode(): nat { first % 16 }

    predicate IsControl() { Opcode() == 9 || Opcode() == 10 }

    /** A frame `ReadFrame` can take whole: not a close frame and not too large. */
    predicate Readable() { Opcode() != 8 && |payload| <= MAX_PAYLOAD }

    /** What `ReadFrame` returns for it: nothing for a ping or pong. */
    function Visible(): seq<Byte> { if IsControl() then [] else payload }
  }

  function Body(masking: MaskBit, payload: seq<Byte>): seq<Byte> {
    match masking
    case Unmasked => payload
    case MaskedBy(mask) => mask + Masked(payload, mask)
  }

  function Encode(f: WireFrame): seq<Byte> {
    [f.first] + LengthField(f.masking.MaskedBy?, |f.payload|) + Body(f.masking, f.payload)
  }

  /** The frame `SendFrame` writes: a single masked text frame. */
  function ClientFrame(payload: seq<Byte>, mask: Mask): WireFrame {
    WireFrame(0x81, MaskedBy(mask), payload)
  }

  /** The length bytes `SendFrame` appends, with the mask bit set. */
  method AppendLength(header: seq<Byte>, len: nat) returns (frame: seq<Byte>)
    ensures frame == header + LengthField(true, len)
  {
    hide Or;
    frame := header;
    if len <= 125 {
      OrTopBit(len);
      frame := frame + [Or(0x80, len)];
    } else if len <= 65535 {
      OrTopBit(126);
      frame := frame + [Or(0x80, 126)];
      frame := frame + [Shr(len, 8) % 256];
      frame := frame + [len % 256];
      ShrByte(len);
      assert BigEndian(len, 2) == BigEndian(len / 256, 1) + [len % 256];
    } else {
      hide Shr;
      OrTopBit(127);
      frame := frame + [Or(0x80, 127)];
      ShrAll(len);
      var i := 7;
      while i >= 0
        invariant -1 <= i <= 7
        invariant frame == header + ([0xFF] + BigEndian(Shr(len, 8 * (i + 1)), 7 - i))
      {
        frame := frame + [Shr(len, i * 8) % 256];
        ShrByte(Shr(len, 8 * i));
        ShrShr(len, 8 * i, 8);
        i := i - 1;
      }
    }
  }

  lemma ShrAll(n: nat)
    ensures Shr(n, 0) == n
  {
  }

  /** `SendFrame`, given the four random bytes of the mask. */
  method SendFrame(sock: Socket, payload: seq<Byte>, mask: Mask) returns (ok: bool)
    requires sock.closes == 0 && |payload| < SIZE_LIMIT
    modifies sock`outgoing
    ensures sock.reliable ==> ok
    ensures ok ==> sock.outgoing == old(sock.outgoing) + Encode(ClientFrame(payload, mask))
    ensures !ok ==> exists k :: 0 <= k < |Encode(ClientFrame(payload, mask))|
                      && sock.outgoing == old(sock.outgoing) + Encode(ClientFrame(payload, mask))[..k]
  {
    hide XorByte, LengthField;
    var frame := AppendLength([0x81], |payload|);
    ghost var header := frame;
    frame := frame + [mask[0]] + [mask[1]] + [mask[2]] + [mask[3]];
    assert frame == header + mask;
    var i := 0;
    while i < |payload|
      invariant 0 <= i <= |payload|
      invariant frame == header + mask + Masked(payload, mask)[..i]
    {
      frame := frame + [XorByte(payload[i], mask[i % 4])];
      i := i + 1;
    }
    assert Masked(payload, mask)[..|payload|] == Masked(payload, mask);
    assert frame == Encode(ClientFrame(payload, mask));
    ok := SendAll(sock, frame);
  }

  lemma ShrByte(n: nat)
    ensures Shr(n, 8) == n / 256
  {
    assert Shr(n, 8) == Shr(n / 2, 7) == Shr(n / 2 / 2, 6) == Shr(n / 2 / 2 / 2, 5);
    assert Shr(n / 8, 5) == Shr(n / 8 / 2, 4) == Shr(n / 8 / 2 / 2, 3);
    assert Shr(n / 32, 3) == Shr(n / 32 / 2, 2) == Shr(n / 32 / 2 / 2, 1) == Shr(n / 32 / 2 / 2 / 2, 0);
  }

  // --- Reading ------------------------------------------------------------------------------------------

  datatype Read = Read(payload: seq<Byte>, rest: seq<Byte>)

  /** The payload length announced by the header of `s`, and where the header's length field ends. */
  datatype Length = Missing | Length(len: nat, end: nat)

  function ParseLength(s: seq<Byte>): (r: Length)
    requires |s| >= 2
    ensures r.Length? ==> 2 <= r.end <= |s|
  {
    match LengthAfter(s[1] % 128, s[2..])
    case Missing => Missing
    case Length(len, end) => Length(len, 2 + end)
  }

  /** The length that the 7-bit length `short` stands for when the bytes `s` follow it. */
  function LengthAfter(short: nat, s: seq<Byte>): (r: Length)
    ensures r.Length? ==> r.end <= |s|
  {
    if short == 126 then (if |s| < 2 then Missing else Length(FromBigEndian(s[..2]), 2))
    else if short == 127 then (if |s| < 8 then Missing else Length(FromBigEndian(s[..8]), 8))
    else Length(short, 0)
  }

  lemma LengthAfterHeader(s: seq<Byte>)
    requires |s| >= 2 && ParseLength(s).Length?
    ensures s[2..][ParseLength(s).end - 2..] == s[ParseLength(s).end..]
  {
  }

  datatype Rest = Cut | Rest(payload: seq<Byte>, rest: seq<Byte>)

  /** The unmasked payload of `len` bytes that `s` starts with, after the mask if there is one. */
  function BodyAfter(s: seq<Byte>, len: nat, masked: bool): Rest {
    var start := if masked then 4 else 0;
    if |s| < start + len then Cut
    else
      var raw := s[start..start + len];
      Rest(if masked then Masked(raw, s[..4]) else raw, s[start + len..])
  }

  /** What one `ReadFrame` returns over a stream that cannot fail, and what it leaves unread.  The empty payload
      stands for a ping, pong, close or oversized frame, an empty payload and the end of the stream. */
  function ReadSpec(s: seq<Byte>): Read {
    if |s| < 2 then Read([], [])
    else if s[0] % 16 == 8 then Read([], s[2..])
    else
      var field := ParseLength(s);
      if field.Missing? then Read([], [])
      else if field.len > MAX_PAYLOAD then Read([], s[field.end..])
      else
        match BodyAfter(s[field.end..], field.len, s[1] >= 128)
        case Cut => Read([], [])
        case Rest(payload, rest) => Read(if s[0] % 16 == 9 || s[0] % 16 == 10 then [] else payload, rest)
  }

  /** `ReadFrame`.  Whatever the chunking, over a reliable socket it does what `ReadSpec` says; over any socket it
      consumes a prefix of the stream, and a non-empty result is the payload `ReadSpec` gives. */
  method ReadFrame(sock: Socket) returns (payload: seq<Byte>)
    requires sock.closes == 0
    modifies sock`incoming
    ensures Suffix(sock.incoming, old(sock.incoming))
    ensures sock.reliable || payload != [] ==> Read(payload, sock.incoming) == ReadSpec(old(sock.incoming))
  {
    hide Suffix, LengthAfter, BodyAfter;
    ghost var stream := sock.incoming;
    var ok, header := ReadHeader(sock);
    if !ok {
      return [];
    }
    SuffixDrop(stream, 2);
    var opcode := header[0] % 16;
    if opcode == 0x8 {
      return [];
    }
    var masked := header[1] >= 0x80;
    var okLength, payloadLen := ReadLength(sock, header[1] % 0x80);
    if !okLength {
      SuffixTransitive(sock.incoming, stream[2..], stream);
      return [];
    }
    ghost var end := ParseLength(stream).end;
    LengthAfterHeader(stream);
    SuffixDrop(stream, end);
    if payloadLen > MAX_PAYLOAD {
      return [];
    }
    payload := ReadBody(sock, payloadLen, masked);
    SuffixTransitive(sock.incoming, stream[end..], stream);
    if opcode == 0x9 || opcode == 0xA {
      return [];
    }
  }

  method ReadHeader(sock: Socket) returns (ok: bool, header: seq<Byte>)
    requires sock.closes == 0
    modifies sock`incoming
    ensures Suffix(sock.incoming, old(sock.incoming))
    ensures ok ==> |header| == 2 && header <= old(sock.incoming) && sock.incoming == old(sock.incoming)[2..]
    ensures sock.reliable ==> ok == (|old(sock.incoming)| >= 2)
    ensures sock.reliable && !ok ==> sock.incoming == []
  {
    ghost var stream := sock.incoming;
    var buffer := new Byte[2];
    ok := RecvAll(sock, buffer);
    if ok {
      SuffixDrop(stream, 2);
    }
    header := buffer[..];
  }

  /** Reads the extended length, if the 7-bit one asks for it. */
  method ReadLength(sock: Socket, short: nat) returns (ok: bool, len: nat)
    requires sock.closes == 0
    modifies sock`incoming
    ensures Suffix(sock.incoming, old(sock.incoming))
    ensures sock.reliable || ok ==>
              var field := LengthAfter(short, old(sock.incoming));
              if field.Missing? then !ok && sock.incoming == []
              else ok && len == field.len && sock.incoming == old(sock.incoming)[field.end..]
  {
    ghost var stream := sock.incoming;
    ok, len := true, short;
    if short == 126 {
      var ext := new Byte[2];
      ok := RecvAll(sock, ext);
      if ok {
        SuffixDrop(stream, 2);
        len := TwoByteLength(ext);
      }
    } else if short == 127 {
      var ext := new Byte[8];
      ok := RecvAll(sock, ext);
      if ok {
        SuffixDrop(stream, 8);
        len := EightByteLength(ext);
      }
    }
  }

  method TwoByteLength(ext: array<Byte>) returns (len: nat)
    requires ext.Length == 2
    ensures len == FromBigEndian(ext[..])
  {
    hide Or;
    assert ext[..][..1] == [ext[0]];
    assert FromBigEndian(ext[..][..1]) == 256 * FromBigEndian([]) + ext[0];
    assert ext[..] == [ext[0], ext[1]];
    var high: nat := ext[0];
    OrByte(high, ext[1]);
    len := Or(high * 256, ext[1]);
  }

  /** The shift-and-or loop over a 64-bit accumulator. */
  method EightByteLength(ext: array<Byte>) returns (len: nat)
    requires ext.Length == 8
    ensures len == FromBigEndian(ext[..])
  {
    hide Or;
    len := 0;
    var i := 0;
    while i < 8
      invariant 0 <= i <= 8
      invariant len == FromBigEndian(ext[..i])
    {
      FromBigEndianBound(ext[..i]);
      Pow256Fits(i);
      assert ext[..i + 1][..i] == ext[..i];
      OrByte(len, ext[i]);
      len := Or(len * 256 % SIZE_LIMIT, ext[i]);
      i := i + 1;
    }
    assert ext[..] == ext[..8];
  }

  lemma Pow256Fits(i: nat)
    requires i < 8
    ensures Pow256(i) * 256 <= SIZE_LIMIT
  {
    Pow256Values();
    Pow256Grows(i, 7);
  }

  lemma {:induction false} Pow256Grows(i: nat, j: nat)
    requires i <= j
    ensures Pow256(i) <= Pow256(j)
  {
    if i < j {
      Pow256Grows(i, j - 1);
    }
  }

  /** The loop that unmasks a payload in place. */
  method Unmask(buffer: array<Byte>, mask: array<Byte>)
    requires mask.Length == 4 && buffer != mask
    modifies buffer
    ensures buffer[..] == Masked(old(buffer[..]), mask[..])
  {
    hide XorByte;
    ghost var raw, key := buffer[..], mask[..];
    var i := 0;
    while i < buffer.Length
      invariant 0 <= i <= buffer.Length && mask[..] == key
      invariant forall k :: 0 <= k < buffer.Length ==>
                  buffer[k] == if k < i then XorByte(raw[k], key[k % 4]) else raw[k]
    {
      buffer[i] := XorByte(buffer[i], mask[i % 4]);
      i := i + 1;
    }
    assert buffer[..] == Masked(raw, key);
  }

  /** Reads the mask, if any, and the payload, which it unmasks in place. */
  method ReadBody(sock: Socket, payloadLen: nat, masked: bool) returns (payload: seq<Byte>)
    requires sock.closes == 0
    modifies sock`incoming
    ensures Suffix(sock.incoming, old(sock.incoming))
    ensures sock.reliable || payload != [] ==>
              match BodyAfter(old(sock.incoming), payloadLen, masked)
              case Cut => payload == [] && sock.incoming == []
              case Rest(body, rest) => payload == body && sock.incoming == rest
  {
    hide XorByte;
    ghost var stream := sock.incoming;
    var mask := new Byte[4](_ => 0);
    if masked {
      var ok := RecvAll(sock, mask);
      if !ok {
        return [];
      }
      assert mask[..] == stream[..4];
      SuffixDrop(stream, 4);
    }
    ghost var rest := sock.incoming;
    ghost var start := if masked then 4 else 0;
    assert rest == stream[start..];
    var buffer := new Byte[payloadLen](_ => 0);
    if payloadLen > 0 {
      var ok := RecvAll(sock, buffer);
      if !ok {
        SuffixTransitive(sock.incoming, rest, stream);
        return [];
      }
    }
    SuffixDrop(stream, start + payloadLen);
    assert sock.incoming == rest[payloadLen..] == stream[start + payloadLen..];
    ghost var raw := buffer[..];
    assert raw == stream[start..start + payloadLen];
    if masked {
      Unmask(buffer, mask);
    }
    payload := buffer[..];
  }
}
