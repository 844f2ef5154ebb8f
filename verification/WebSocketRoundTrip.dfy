/** What a reader gets out of what a writer put in: round trips of single frames and of whole streams. */
module WebSocketRoundTrip {

  import opened Bits
  import opened WebSocketCodec

  // --- Lengths -----------------------------------------------------------------------------------------

  /** The reader recovers the length and the mask bit from the length field, and where the field ends. */
  lemma LengthRoundTrip(first: Byte, masked: bool, len: nat, tail: seq<Byte>)
    requires len < SIZE_LIMIT
    ensures var s := [first] + LengthField(masked, len) + tail;
            && |s| >= 2 && s[0] == first
            && ParseLength(s) == Length(len, 1 + |LengthField(masked, len)|)
            && (s[1] >= 128 <==> masked)
  {
    var s := [first] + LengthField(masked, len) + tail;
    Pow256Values();
    if len > 65535 {
      assert s[2..][..8] == BigEndian(len, 8);
      BigEndianRoundTrip(len, 8);
    } else if len > 125 {
      assert s[2..][..2] == BigEndian(len, 2);
      BigEndianRoundTrip(len, 2);
    }
  }

  /** The length field is minimal: no header that announces the same length has a shorter one. */
  lemma LengthFieldIsMinimal(s: seq<Byte>, masked: bool)
    requires |s| >= 2 && ParseLength(s).Length?
    ensures var field := ParseLength(s); 1 + |LengthField(masked, field.len)| <= field.end
  {
    Pow256Values();
    if s[1] % 128 == 126 {
      FromBigEndianBound(s[2..][..2]);
    } else if s[1] % 128 == 127 {
      FromBigEndianBound(s[2..][..8]);
    }
  }

  // --- One frame -------------------------------------------------------------------------------------

  lemma BodyRoundTrip(masking: MaskBit, payload: seq<Byte>, rest: seq<Byte>)
    ensures BodyAfter(Body(masking, payload) + rest, |payload|, masking.MaskedBy?) == Rest(payload, rest)
  {
    var s := Body(masking, payload) + rest;
    match masking {
      case Unmasked =>
        assert s[..|payload|] == payload && s[|payload|..] == rest;
      case MaskedBy(mask) =>
        assert s[..4] == mask;
        assert s[4..4 + |payload|] == Masked(payload, mask) && s[4 + |payload|..] == rest;
        MaskTwice(payload, mask);
    }
  }

  /** Reading any frame that is neither a close frame nor too large yields its visible payload and consumes
      exactly its bytes: pings and pongs are skipped whole. */
  lemma ReadableFrameRoundTrip(f: WireFrame, rest: seq<Byte>)
    requires f.Readable()
    ensures ReadSpec(Encode(f) + rest) == Read(f.Visible(), rest)
  {
    hide LengthField, BodyAfter, Body, ParseLength;
    var field := LengthField(f.masking.MaskedBy?, |f.payload|);
    var body := Body(f.masking, f.payload);
    var s := Encode(f) + rest;
    assert s == [f.first] + field + (body + rest);
    LengthRoundTrip(f.first, f.masking.MaskedBy?, |f.payload|, body + rest);
    assert s[1 + |field|..] == body + rest;
    BodyRoundTrip(f.masking, f.payload, rest);
  }

  /** A frame that is too large is not read: the reader stops right after its length field, in front of the mask
      and payload bytes. */
  lemma OversizedFrameDesynchronises(f: WireFrame, rest: seq<Byte>)
    requires f.Opcode() != 8 && MAX_PAYLOAD < |f.payload| < SIZE_LIMIT
    ensures ReadSpec(Encode(f) + rest) == Read([], Body(f.masking, f.payload) + rest)
  {
    hide LengthField, BodyAfter, Body, ParseLength;
    var field := LengthField(f.masking.MaskedBy?, |f.payload|);
    var body := Body(f.masking, f.payload);
    var s := Encode(f) + rest;
    assert s == [f.first] + field + (body + rest);
    LengthRoundTrip(f.first, f.masking.MaskedBy?, |f.payload|, body + rest);
    assert s[1 + |field|..] == body + rest;
  }

  /** Of a close frame only the first two bytes are read. */
  lemma CloseFrameRead(f: WireFrame, rest: seq<Byte>)
    requires f.Opcode() == 8
    ensures |Encode(f)| >= 2 && ReadSpec(Encode(f) + rest) == Read([], Encode(f)[2..] + rest)
    ensures |Encode(f)| == 2 <==> f.masking.Unmasked? && f.payload == []
  {
    hide BodyAfter, ParseLength;
    var s := Encode(f) + rest;
    assert s[2..] == Encode(f)[2..] + rest;
  }

  /** The reader consumes a frame whole, no more and no less, exactly when the frame is readable or is an empty close
      frame without a mask; then it returns what the frame shows. */
  lemma FrameConsumedExactly(f: WireFrame, rest: seq<Byte>)
    requires |f.payload| < SIZE_LIMIT
    ensures ReadSpec(Encode(f) + rest).rest == rest <==>
            || (f.first % 16 != 8 && |f.payload| <= 0x10_0000)
            || (f.first % 16 == 8 && f.masking.Unmasked? && f.payload == [])
    ensures ReadSpec(Encode(f) + rest).rest == rest ==> ReadSpec(Encode(f) + rest).payload == f.Visible()
  {
    hide ReadSpec, Encode;
    if f.Readable() {
      ReadableFrameRoundTrip(f, rest);
    } else if f.Opcode() == 8 {
      CloseFrameRead(f, rest);
      var left := Encode(f)[2..];
      assert left == [] ==> left + rest == rest;
      assert |left + rest| == |left| + |rest|;
    } else {
      OversizedFrameDesynchronises(f, rest);
      var body := Body(f.masking, f.payload);
      assert |body + rest| == |body| + |rest|;
    }
  }

  /** What `SendFrame` writes is read back, with nothing left over or lost, exactly when the payload has at most
      1 MB; the writer itself accepts any size. */
  lemma ClientFrameRoundTrip(payload: seq<Byte>, mask: Mask, rest: seq<Byte>)
    requires |payload| < SIZE_LIMIT
    ensures ReadSpec(Encode(ClientFrame(payload, mask)) + rest) == Read(payload, rest) <==> |payload| <= MAX_PAYLOAD
  {
    hide ReadSpec, Encode, Body;
    var f := ClientFrame(payload, mask);
    if |payload| <= MAX_PAYLOAD {
      ReadableFrameRoundTrip(f, rest);
    } else {
      OversizedFrameDesynchronises(f, rest);
    }
  }

  /** The bytes of a client frame (RFC 6455, section 5.2): FIN and opcode 1 with the reserved bits clear; the mask bit
      with 7 bits of length, or with 126 or 127 and the length in 2 or 8 bytes; the mask; and the payload, whose octet
      i is xored with octet i modulo 4 of the mask (section 5.3). */
  lemma ClientFrameBytes(payload: seq<Byte>, mask: Mask)
    requires |payload| < SIZE_LIMIT
    ensures var f, len := Encode(ClientFrame(payload, mask)), |payload|;
            var h := if len <= 125 then 2 else if len <= 65535 then 4 else 10;
            && |f| == h + 4 + len && f[0] == 0x80 + 0x01
            && f[1] == 0x80 + (if len <= 125 then len else if len <= 65535 then 126 else 127)
            && (forall i :: 2 <= i < h ==> f[i] == len / Pow256(h - 1 - i) % 256)
            && f[h..h + 4] == mask
            && forall i :: 0 <= i < len ==> Xor(f[h + 4 + i], payload[i]) == mask[i % 4]
  {
    hide Xor;
    var f, len := Encode(ClientFrame(payload, mask)), |payload|;
    var h := if len <= 125 then 2 else if len <= 65535 then 4 else 10;
    var head := [0x81] + LengthField(true, len);
    assert f == head + (mask + Masked(payload, mask)) && |head| == h;
    assert f[h..h + 4] == mask;
    forall i | 2 <= i < h
      ensures f[i] == len / Pow256(h - 1 - i) % 256
    {
      assert f[i] == BigEndian(len, h - 2)[i - 2];
      BigEndianDigit(len, h - 2, i - 2);
    }
    forall i | 0 <= i < len
      ensures Xor(f[h + 4 + i], payload[i]) == mask[i % 4]
    {
      assert f[h + 4 + i] == Xor(payload[i], mask[i % 4]);
      XorCommutes(payload[i], mask[i % 4]);
      XorCancels(mask[i % 4], payload[i]);
    }
  }

  // --- Streams -----------------------------------------------------------------------------------------

  function EncodeAll(frames: seq<WireFrame>): seq<Byte> {
    if frames == [] then [] else Encode(frames[0]) + EncodeAll(frames[1..])
  }

  /** What `n` reads in a row return, and what they leave. */
  function ReadMany(s: seq<Byte>, n: nat): (r: (seq<seq<Byte>>, seq<Byte>))
    ensures |r.0| == n
    decreases n
  {
    if n == 0 then ([], s)
    else
      var first := ReadSpec(s);
      var (payloads, rest) := ReadMany(first.rest, n - 1);
      ([first.payload] + payloads, rest)
  }

  /** Reads n frames from a socket that cannot fail, whatever sizes its reads have. */
  method ReadFrames(sock: Socket, n: nat) returns (payloads: seq<seq<Byte>>)
    requires sock.closes == 0 && sock.reliable
    modifies sock`incoming
    ensures (payloads, sock.incoming) == ReadMany(old(sock.incoming), n)
  {
    hide ReadSpec, Suffix;
    ghost var stream := sock.incoming;
    payloads := [];
    var i := 0;
    assert [] + ReadMany(stream, n).0 == ReadMany(stream, n).0;
    while i < n
      invariant 0 <= i <= n && |payloads| == i
      invariant var later := ReadMany(sock.incoming, n - i);
                (payloads + later.0, later.1) == ReadMany(stream, n)
    {
      ghost var before := sock.incoming;
      var payload := ReadFrame(sock);
      ghost var later := ReadMany(sock.incoming, n - i - 1);
      assert ReadMany(before, n - i) == ([payload] + later.0, later.1);
      assert payloads + ([payload] + later.0) == payloads + [payload] + later.0;
      payloads := payloads + [payload];
      i := i + 1;
    }
    assert payloads + [] == payloads;
  }

  function VisiblePayloads(frames: seq<WireFrame>): (r: seq<seq<Byte>>)
    ensures |r| == |frames|
  {
    seq(|frames|, i requires 0 <= i < |frames| => frames[i].Visible())
  }

  /** Any mixture of data frames, masked or not, and of pings and pongs is read back frame by frame in order,
      without ever losing sync, and the reads consume exactly the bytes of the frames. */
  lemma {:induction false} StreamRoundTrip(frames: seq<WireFrame>, rest: seq<Byte>)
    requires forall i :: 0 <= i < |frames| ==> frames[i].Readable()
    ensures ReadMany(EncodeAll(frames) + rest, |frames|) == (VisiblePayloads(frames), rest)
  {
    hide ReadSpec, Encode;
    if frames == [] {
      assert [] + rest == rest;
    } else {
      var later := EncodeAll(frames[1..]) + rest;
      assert EncodeAll(frames) + rest == Encode(frames[0]) + later;
      ReadableFrameRoundTrip(frames[0], later);
      StreamRoundTrip(frames[1..], rest);
      assert VisiblePayloads(frames) == [frames[0].Visible()] + VisiblePayloads(frames[1..]);
    }
  }

  function ClientFrames(payloads: seq<seq<Byte>>, masks: seq<Mask>): (frames: seq<WireFrame>)
    requires |payloads| == |masks|
    ensures |frames| == |payloads|
  {
    seq(|payloads|, i requires 0 <= i < |payloads| => ClientFrame(payloads[i], masks[i]))
  }

  /** Reading the concatenated output of `SendFrame` returns the payloads in order and consumes exactly the bytes
      sent, whatever the masks. */
  lemma ClientStreamRoundTrip(payloads: seq<seq<Byte>>, masks: seq<Mask>, rest: seq<Byte>)
    requires |payloads| == |masks|
    requires forall i :: 0 <= i < |payloads| ==> |payloads[i]| <= MAX_PAYLOAD
    ensures ReadMany(EncodeAll(ClientFrames(payloads, masks)) + rest, |payloads|) == (payloads, rest)
  {
    hide ReadMany, EncodeAll;
    var frames := ClientFrames(payloads, masks);
    StreamRoundTrip(frames, rest);
    assert VisiblePayloads(frames) == payloads;
  }
}
