/** What is on the wire, byte by byte and bit by bit, and what a stream sends back. */
module WebSocketWire {
  import opened Prelude
  import opened WebSocketFrames
  import opened WebSocketRoundTrip
  import opened WebSocketStream

  // ----- Masking, bit by bit -----

  /** The i-th bit of a number, the lowest being the 0-th. */
  function Bit(n: nat, i: nat): nat {
    if i == 0 then n % 2 else Bit(n / 2, i - 1)
  }

  lemma {:induction false} XorBitsAt(a: nat, b: nat, bits: nat, i: nat)
    requires i < bits
    ensures Bit(XorBits(a, b, bits), i) == if Bit(a, i) == Bit(b, i) then 0 else 1
    decreases i
  {
    var low, inner := (a + b) % 2, XorBits(a / 2, b / 2, bits - 1);
    HalfOf(low, inner);
    if i == 0 {
      LowBit(a, b, inner);
    } else {
      XorBitsAt(a / 2, b / 2, bits - 1, i - 1);
    }
  }

  lemma LowBit(a: nat, b: nat, inner: nat)
    ensures ((a + b) % 2 + 2 * inner) % 2 == if a % 2 == b % 2 then 0 else 1
  {
    var p, q := a % 2, b % 2;
    assert (a + b) % 2 == if p == q then 0 else 1;
  }

  /** A bit of a masked byte is set exactly if it differs between the byte and the byte of the key at the same
      place modulo four. */
  lemma MaskedBit(payload: Bytes, key: Bytes, i: nat, k: nat)
    requires |key| == 4 && i < |payload| && k < 8
    ensures Bit(Masked(payload, key)[i] as nat, k)
         == if Bit(payload[i] as nat, k) == Bit(key[i % 4] as nat, k) then 0 else 1
  {
    XorBitsAt(payload[i] as nat, key[i % 4] as nat, 8, k);
  }

  // ----- Frames, byte by byte -----

  lemma TwoBytes(n: nat)
    requires n < 65536
    ensures BigEndian(n, 2) == [(n / 256) as byte, (n % 256) as byte]
  {
    assert BigEndian(n / 256, 1) == BigEndian(n / 256 / 256, 0) + [(n / 256 % 256) as byte];
  }

  /** Up to 125 bytes, a frame of the server has two bytes in front; up to 65535, four; and beyond, ten. */
  lemma FrameBytes(opcode: byte, payload: Bytes)
    requires opcode < 16
    ensures var n, frame := |payload|, Encoded(opcode, payload);
      && (n <= 125 ==> frame == [128 + opcode, n as byte] + payload)
      && (126 <= n <= 65535 ==> frame == [128 + opcode, 126, (n / 256) as byte, (n % 256) as byte] + payload)
      && (n >= 65536 ==>
          |frame| == 10 + n && frame[..2] == [128 + opcode, 127] && frame[2..10] == BigEndian(n, 8)
          && frame[10..] == payload)
  {
    if 126 <= |payload| <= 65535 {
      TwoBytes(|payload|);
    }
  }

  /** A frame of a client is told by the high bit of the second byte, and has the key in front of the masked
      payload. */
  lemma ClientFrameBytes(opcode: byte, payload: Bytes, key: Bytes)
    requires opcode < 16 && |key| == 4 && |payload| <= 125
    ensures EncodedByClient(opcode, payload, key)
         == [128 + opcode, 128 + |payload| as byte] + key + Masked(payload, key)
  {
  }

  /** The frames of section 5.7 of RFC 6455: a single-frame text message "Hello", unmasked and masked. */
  lemma HelloIsRead(hello: Bytes, key: Bytes, maxBytes: nat)
    requires hello == [0x48, 0x65, 0x6c, 0x6c, 0x6f] && key == [0x37, 0xfa, 0x21, 0x3d] && maxBytes >= 5
    ensures Encoded(1, hello) == [0x81, 0x05] + hello
    ensures var wire := [0x81, 0x85] + key + [0x7f, 0x9f, 0x4d, 0x51, 0x58];
      EncodedByClient(1, hello, key) == wire && Parse(wire, maxBytes) == Complete(Frame(1, hello), 11)
  {
    HelloIsMasked(hello, key);
    FrameBytes(1, hello);
    ClientFrameBytes(1, hello, key);
    RoundTrip(1, hello, Some(key), [], maxBytes);
    assert Wire(1, hello, Some(key)) + [] == EncodedByClient(1, hello, key);
  }

  /** The lowest bit, and the rest. */
  lemma XorStep(a: nat, b: nat, bits: nat, rest: nat)
    requires bits > 0 && XorBits(a / 2, b / 2, bits - 1) == rest
    ensures XorBits(a, b, bits) == (if a % 2 == b % 2 then 0 else 1) + 2 * rest
  {
    LowBit(a, b, 0);
  }

  lemma FirstXor()
    ensures Xor(0x48, 0x37) == 0x7f
  {
    XorOfBytes(0x48, 0x37, 0x7f);
  }

  lemma SecondXor()
    ensures Xor(0x65, 0xfa) == 0x9f
  {
    XorOfBytes(0x65, 0xfa, 0x9f);
  }

  lemma ThirdXor()
    ensures Xor(0x6c, 0x21) == 0x4d
  {
    XorOfBytes(0x6c, 0x21, 0x4d);
  }

  lemma FourthXor()
    ensures Xor(0x6c, 0x3d) == 0x51
  {
    XorOfBytes(0x6c, 0x3d, 0x51);
  }

  lemma FifthXor()
    ensures Xor(0x6f, 0x37) == 0x58
  {
    XorOfBytes(0x6f, 0x37, 0x58);
  }

  /** A byte that has, at each of the eight places, the bit of an exclusive or. */
  predicate IsXor(a: nat, b: nat, x: nat, bits: nat) {
    if bits == 0 then x == 0
    else x % 2 == (if a % 2 == b % 2 then 0 else 1) && IsXor(a / 2, b / 2, x / 2, bits - 1)
  }

  lemma {:induction false} XorBitsIs(a: nat, b: nat, x: nat, bits: nat)
    requires IsXor(a, b, x, bits)
    ensures XorBits(a, b, bits) == x
    decreases bits
  {
    if bits > 0 {
      XorBitsIs(a / 2, b / 2, x / 2, bits - 1);
      XorStep(a, b, bits, x / 2);
    }
  }

  lemma XorOfBytes(a: byte, b: byte, x: byte)
    requires IsXor(a as nat, b as nat, x as nat, 8)
    ensures Xor(a, b) == x
  {
    XorBitsIs(a as nat, b as nat, x as nat, 8);
  }

  lemma HelloIsMasked(hello: Bytes, key: Bytes)
    requires hello == [0x48, 0x65, 0x6c, 0x6c, 0x6f] && key == [0x37, 0xfa, 0x21, 0x3d]
    ensures Masked(hello, key) == [0x7f, 0x9f, 0x4d, 0x51, 0x58]
  {
    FirstXor();
    SecondXor();
    ThirdXor();
    FourthXor();
    FifthXor();
    var masked := Masked(hello, key);
    assert masked[0] == Xor(hello[0], key[0]) && masked[1] == Xor(hello[1], key[1]);
    assert masked[2] == Xor(hello[2], key[2]) && masked[3] == Xor(hello[3], key[3]);
    assert masked[4] == Xor(hello[4], key[0]);
  }

  // ----- What a stream sends back -----

  /** A stream that waits at the start of a frame. */
  ghost predicate Waits(s: Stream) {
    s.buffer == [] && !s.closed && !s.ended
  }

  lemma OneFrame(s: Stream, opcode: byte, payload: Bytes, key: Bytes, maxBytes: nat)
    requires Waits(s) && opcode < 16 && |key| == 4 && |payload| <= maxBytes && |payload| < MAX_LENGTH
    ensures var wire, frame := EncodedByClient(opcode, payload, key), Frame(opcode, payload);
      && |wire| <= maxBytes + 16
      && Drain(wire, maxBytes) == Drained([frame], [], if opcode == CLOSE then Closing else Open)
      && Replies([frame]) == Reply(frame)
  {
    var wire, frame := EncodedByClient(opcode, payload, key), Frame(opcode, payload);
    RoundTrip(opcode, payload, Some(key), [], maxBytes);
    assert wire + [] == wire == Wire(opcode, payload, Some(key));
    var none: Bytes := [];
    assert wire[|wire|..] == none && Drain(none, maxBytes) == Drained([], [], Open);
    assert [frame][..0] == [] && Replies([]) == [];
  }

  /** A ping is answered with a pong that carries its payload; a close frame is answered with an empty one,
      behind which the sending side ends; a frame of any other kind is taken without an answer. */
  lemma FrameIsAnswered(s: Stream, opcode: byte, payload: Bytes, key: Bytes, maxBytes: nat)
    requires Waits(s) && opcode < 16 && |key| == 4 && |payload| <= maxBytes && |payload| <= 125
    ensures var t := AfterData(s, EncodedByClient(opcode, payload, key), maxBytes);
      && Waits(t.(ended := false)) && t.handled == s.handled + [Frame(opcode, payload)]
      && (t.ended <==> opcode == 8)
      && t.sent == s.sent + if opcode == 9 then [[138, |payload| as byte] + payload]
                            else if opcode == 8 then [[136, 0]] else []
  {
    OneFrame(s, opcode, payload, key, maxBytes);
    FrameBytes(PONG, payload);
    FrameBytes(CLOSE, []);
    assert [136, 0] + [] == [136, 0];
    assert s.buffer + EncodedByClient(opcode, payload, key) == EncodedByClient(opcode, payload, key);
  }

  /** A frame that declares more than the bound is refused as soon as its length has arrived: the stream is
      closed, and sends a close frame with status 1008 if its sending side is still open. */
  lemma LargeFrameIsRefused(s: Stream, opcode: byte, payload: Bytes, key: Bytes, maxBytes: nat)
    requires s.buffer == [] && !s.closed && opcode < 16 && |key| == 4 && maxBytes < |payload| <= 125
    ensures var t := AfterData(s, EncodedByClient(opcode, payload, key)[..2], maxBytes);
      && t.closed && t.ended && t.handled == s.handled
      && (s.ended ==> t.sent == s.sent)
      && (!s.ended ==> |t.sent| == |s.sent| + 1 && s.sent <= t.sent
                       && |t.sent[|s.sent|]| == 19 && t.sent[|s.sent|][..4] == [136, 17, 3, 240])
  {
    var head := EncodedByClient(opcode, payload, key)[..2];
    ClientFrameBytes(opcode, payload, key);
    assert head == [128 + opcode, 128 + |payload| as byte];
    assert s.buffer + head == head;
    SentinelBytes();
  }

  lemma SentinelBytes()
    ensures |Encoded(CLOSE, FRAME_TOO_LARGE)| == 19 && Encoded(CLOSE, FRAME_TOO_LARGE)[..4] == [136, 17, 3, 240]
  {
    TwoBytes(1008);
    FrameBytes(CLOSE, FRAME_TOO_LARGE);
    assert |FRAME_TOO_LARGE| == 17 && FRAME_TOO_LARGE[..2] == [3, 240];
  }
}
