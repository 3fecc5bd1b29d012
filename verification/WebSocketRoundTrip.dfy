/** Parsing undoes encoding, needs the whole frame, and does not look beyond it. */
module WebSocketRoundTrip {
  import opened Prelude
  import opened WebSocketFrames

  // ----- Masking -----

  lemma HalfOf(bit: nat, inner: nat)
    requires bit < 2
    ensures (bit + 2 * inner) / 2 == inner
  {
  }

  lemma LowBitTwice(a: nat, b: nat, inner: nat)
    ensures ((a + b) % 2 + 2 * inner + b) % 2 == a % 2
  {
    var p, q := a % 2, b % 2;
    assert (a + b) % 2 == if p == q then 0 else 1;
  }

  lemma {:induction false} XorBitsTwice(a: nat, b: nat, bits: nat)
    requires a < Pow2(bits)
    ensures XorBits(XorBits(a, b, bits), b, bits) == a
    decreases bits
  {
    if bits > 0 {
      XorBitsTwice(a / 2, b / 2, bits - 1);
      var inner := XorBits(a / 2, b / 2, bits - 1);
      HalfOf((a + b) % 2, inner);
      LowBitTwice(a, b, inner);
    }
  }

  lemma XorTwice(a: byte, b: byte)
    ensures Xor(Xor(a, b), b) == a
  {
    assert Pow2(8) == 256;
    XorBitsTwice(a as nat, b as nat, 8);
  }

  /** Masking is an involution. */
  lemma MaskedTwice(payload: Bytes, key: Bytes)
    requires |key| == 4
    ensures Masked(Masked(payload, key), key) == payload
  {
    forall i | 0 <= i < |payload|
      ensures Masked(Masked(payload, key), key)[i] == payload[i]
    {
      XorTwice(payload[i], key[i % 4]);
    }
  }

  // ----- Numbers -----

  function Pow256(n: nat): (p: nat)
    ensures p > 0
  {
    if n == 0 then 1 else 256 * Pow256(n - 1)
  }

  lemma {:induction false} NumberOfBigEndian(n: nat, count: nat)
    requires n < Pow256(count)
    ensures Number(BigEndian(n, count)) == n
    decreases count
  {
    if count > 0 {
      NumberOfBigEndian(n / 256, count - 1);
      assert BigEndian(n, count)[..count - 1] == BigEndian(n / 256, count - 1);
    }
  }

  lemma LengthBytes(n: nat)
    ensures n < 65536 ==> Number(BigEndian(n, 2)) == n
    ensures n < MAX_LENGTH ==> Number(BigEndian(n, 8)) == n
  {
    assert Pow256(2) == 65536;
    assert Pow256(4) == 65536 * 65536 by {
      assert Pow256(3) == 256 * 65536;
    }
    assert Pow256(6) == 256 * (256 * Pow256(4));
    assert Pow256(8) == 256 * (256 * Pow256(6));
    if n < 65536 { NumberOfBigEndian(n, 2); }
    if n < MAX_LENGTH { NumberOfBigEndian(n, 8); }
  }

  // ----- Frames -----

  /** A frame of either side. */
  function Wire(opcode: byte, payload: Bytes, key: Option<Bytes>): Bytes
    requires opcode < 16 && (key.Some? ==> |key.value| == 4)
  {
    if key.Some? then EncodedByClient(opcode, payload, key.value) else Encoded(opcode, payload)
  }

  function HeaderLength(length: nat): nat {
    if length < 126 then 2 else if length < 65536 then 4 else 10
  }

  /** The start of a wire frame, and what follows the header. */
  lemma WireParts(opcode: byte, payload: Bytes, key: Option<Bytes>) returns (flag: byte, rest: Bytes)
    requires opcode < 16 && (key.Some? ==> |key.value| == 4)
    ensures flag == if key.Some? then 128 else 0
    ensures rest == if key.Some? then key.value + Masked(payload, key.value) else payload
    ensures Wire(opcode, payload, key) == [128 + opcode] + LengthField(|payload|, flag) + rest
    ensures 1 + |LengthField(|payload|, flag)| == HeaderLength(|payload|)
  {
    flag := if key.Some? then 128 else 0;
    rest := if key.Some? then key.value + Masked(payload, key.value) else payload;
    if key.Some? {
      assert [128 + opcode] + LengthField(|payload|, flag) + key.value + Masked(payload, key.value)
        == [128 + opcode] + LengthField(|payload|, flag) + rest;
    }
  }

  /** The header of any buffer that starts like the frame. */
  lemma HeaderIsRead(buffer: Bytes, opcode: byte, length: nat, flag: byte)
    requires opcode < 16 && flag in {0, 128} && length < MAX_LENGTH
    requires var header := [128 + opcode] + LengthField(length, flag); header <= buffer
    ensures |buffer| >= 2 && buffer[0] % 16 == opcode && (buffer[1] >= 128 <==> flag == 128)
    ensures DeclaredLength(buffer) == Some((length, HeaderLength(length)))
  {
    LengthBytes(length);
    var field := LengthField(length, flag);
    var header := [128 + opcode] + field;
    assert buffer[..|header|] == header && header[1..] == field;
    assert buffer[0] == header[0] && buffer[1] == header[1] == field[0];
    assert buffer[2..|header|] == buffer[..|header|][2..] == header[1..][1..] == field[1..];
    if 126 <= length < 65536 {
      assert field[1..] == BigEndian(length, 2);
    } else if length >= 65536 {
      assert field[1..] == BigEndian(length, 8);
    }
  }

  /** An incomplete header is not read. */
  lemma HeaderIsNotRead(buffer: Bytes, opcode: byte, length: nat, flag: byte)
    requires opcode < 16 && flag in {0, 128}
    requires var header := [128 + opcode] + LengthField(length, flag); buffer < header
    ensures |buffer| < 2 || DeclaredLength(buffer) == None
  {
    var header := [128 + opcode] + LengthField(length, flag);
    assert forall i :: 0 <= i < |buffer| ==> buffer[i] == header[i];
    if |buffer| >= 2 {
      assert header[1] == LengthField(length, flag)[0];
    }
  }

  /** Behind the header comes the key, when there is one, and the payload. */
  lemma BodyIsRead(buffer: Bytes, opcode: byte, payload: Bytes, key: Option<Bytes>, offset: nat, rest: Bytes,
                   more: Bytes)
    requires key.Some? ==> |key.value| == 4
    requires rest == if key.Some? then key.value + Masked(payload, key.value) else payload
    requires offset <= |buffer| && buffer[offset..] == rest + more
    ensures Body(buffer, opcode, key.Some?, |payload|, offset) == Complete(Frame(opcode, payload), offset + |rest|)
  {
    var start := if key.Some? then offset + 4 else offset;
    assert buffer[start..start + |payload|] == buffer[offset..][start - offset..start - offset + |payload|];
    if key.Some? {
      assert buffer[offset..start] == buffer[offset..][..4] == key.value;
      assert buffer[start..start + |payload|] == Masked(payload, key.value);
      MaskedTwice(payload, key.value);
    } else {
      assert buffer[start..start + |payload|] == payload;
    }
  }

  /** The round trip, for both sides and all three length forms: the frame comes back, nothing beyond it
      is consumed, and a payload above the bound is refused. */
  lemma RoundTrip(opcode: byte, payload: Bytes, key: Option<Bytes>, more: Bytes, maxBytes: nat)
    requires opcode < 16 && (key.Some? ==> |key.value| == 4) && |payload| < MAX_LENGTH
    ensures Parse(Wire(opcode, payload, key) + more, maxBytes) ==
      if |payload| <= maxBytes then Complete(Frame(opcode, payload), |Wire(opcode, payload, key)|) else TooLarge
  {
    var flag, rest := WireParts(opcode, payload, key);
    var header := [128 + opcode] + LengthField(|payload|, flag);
    var buffer := Wire(opcode, payload, key) + more;
    assert buffer == header + (rest + more);
    HeaderIsRead(buffer, opcode, |payload|, flag);
    assert buffer[|header|..] == rest + more;
    BodyIsRead(buffer, opcode, payload, key, |header|, rest, more);
  }

  /** No proper prefix of a frame yields a frame. */
  lemma ProperPrefixNeedsMore(opcode: byte, payload: Bytes, key: Option<Bytes>, n: nat, maxBytes: nat)
    requires opcode < 16 && (key.Some? ==> |key.value| == 4) && |payload| < MAX_LENGTH
    requires n < |Wire(opcode, payload, key)|
    ensures |payload| <= maxBytes ==> Parse(Wire(opcode, payload, key)[..n], maxBytes) == NeedMore
    ensures |payload| > maxBytes ==>
      Parse(Wire(opcode, payload, key)[..n], maxBytes) == if n < HeaderLength(|payload|) then NeedMore else TooLarge
  {
    var flag, rest := WireParts(opcode, payload, key);
    var header := [128 + opcode] + LengthField(|payload|, flag);
    var buffer := Wire(opcode, payload, key)[..n];
    if n < |header| {
      assert buffer == header[..n];
      HeaderIsNotRead(buffer, opcode, |payload|, flag);
    } else {
      assert header <= buffer;
      HeaderIsRead(buffer, opcode, |payload|, flag);
    }
  }

  // ----- Buffers that grow -----

  lemma DeclaredLengthStays(buffer: Bytes, more: Bytes)
    requires |buffer| >= 2 && DeclaredLength(buffer).Some?
    ensures DeclaredLength(buffer + more) == DeclaredLength(buffer)
    ensures DeclaredLength(buffer).value.1 <= |buffer|
  {
    assert |buffer| >= 4 ==> (buffer + more)[2..4] == buffer[2..4];
    assert |buffer| >= 10 ==> (buffer + more)[2..10] == buffer[2..10];
  }

  lemma BodyStays(buffer: Bytes, more: Bytes, opcode: byte, masked: bool, length: nat, offset: nat)
    requires !Body(buffer, opcode, masked, length, offset).NeedMore?
    ensures Body(buffer + more, opcode, masked, length, offset) == Body(buffer, opcode, masked, length, offset)
  {
    var start := if masked then offset + 4 else offset;
    assert (buffer + more)[start..start + length] == buffer[start..start + length];
    assert masked ==> (buffer + more)[offset..start] == buffer[offset..start];
  }

  /** Once something is decided, later bytes do not change it. */
  lemma ParseStays(buffer: Bytes, more: Bytes, maxBytes: nat)
    requires !Parse(buffer, maxBytes).NeedMore?
    ensures Parse(buffer + more, maxBytes) == Parse(buffer, maxBytes)
  {
    DeclaredLengthStays(buffer, more);
    var (length, offset) := DeclaredLength(buffer).value;
    if length <= maxBytes {
      BodyStays(buffer, more, buffer[0] % 16, buffer[1] >= 128, length, offset);
    }
  }

  /** A buffer that waits for more is shorter than the largest frame. */
  lemma WaitingIsShort(buffer: Bytes, maxBytes: nat)
    requires Parse(buffer, maxBytes).NeedMore?
    ensures |buffer| < maxBytes + 14
  {
  }

  lemma CompleteConsumes(buffer: Bytes, maxBytes: nat)
    requires Parse(buffer, maxBytes).Complete?
    ensures 2 <= Parse(buffer, maxBytes).consumed <= |buffer|
  {
  }
}
