/** WebSocket frames (sections 5.2 and 5.3 of RFC 6455): the server's encoder, the client's form of a
    frame, the parser, and the loops over bytes of both. */
module WebSocketFrames {
  import opened Prelude

  newtype byte = b: int | 0 <= b < 256

  type Bytes = seq<byte>

  const CLOSE: byte := 0x8
  const PING: byte := 0x9
  const PONG: byte := 0xa

  // ----- Masking -----

  /** Exclusive or, bit by bit. */
  function XorBits(a: nat, b: nat, bits: nat): (x: nat)
    ensures x < Pow2(bits)
  {
    if bits == 0 then 0 else (a + b) % 2 + 2 * XorBits(a / 2, b / 2, bits - 1)
  }

  function Pow2(n: nat): (p: nat)
    ensures p > 0
  {
    if n == 0 then 1 else 2 * Pow2(n - 1)
  }

  function Xor(a: byte, b: byte): byte {
    assert Pow2(8) == 256;
    XorBits(a as nat, b as nat, 8) as byte
  }

  /** Each byte with the byte of the key at the same place modulo four. */
  function Masked(payload: Bytes, key: Bytes): Bytes
    requires |key| == 4
  {
    seq(|payload|, i requires 0 <= i < |payload| => Xor(payload[i], key[i % 4]))
  }

  // ----- Big-endian numbers -----

  function BigEndian(n: nat, count: nat): (s: Bytes)
    ensures |s| == count
  {
    if count == 0 then [] else BigEndian(n / 256, count - 1) + [(n % 256) as byte]
  }

  function Number(s: Bytes): nat {
    if s == [] then 0 else Number(s[..|s| - 1]) * 256 + s[|s| - 1] as nat
  }

  // ----- Encoding -----

  /** The length field: seven bits, or a marker and two or eight bytes. `flag` is the mask bit. */
  function LengthField(length: nat, flag: byte): Bytes
    requires flag in {0, 128}
  {
    if length < 126 then [flag + length as byte]
    else if length < 65536 then [flag + 126] + BigEndian(length, 2)
    else [flag + 127] + BigEndian(length, 8)
  }

  /** What the server sends: FIN, the opcode, and no mask. */
  function Encoded(opcode: byte, payload: Bytes): Bytes
    requires opcode < 16
  {
    [128 + opcode] + LengthField(|payload|, 0) + payload
  }

  /** What a client sends: the mask bit, the key, and the masked payload. */
  function EncodedByClient(opcode: byte, payload: Bytes, key: Bytes): Bytes
    requires opcode < 16 && |key| == 4
  {
    [128 + opcode] + LengthField(|payload|, 128) + key + Masked(payload, key)
  }

  /** The largest number that an eight-byte field holds, plus one. */
  const MAX_LENGTH: nat := 0x1_0000_0000_0000_0000

  /** Write a number into a buffer, most significant byte first. */
  method WriteBigEndian(buffer: array<byte>, n: nat, offset: nat, count: nat)
    requires offset + count <= buffer.Length
    modifies buffer
    ensures buffer[..] == old(buffer[..offset]) + BigEndian(n, count) + old(buffer[offset + count..])
  {
    ghost var before, written: Bytes := buffer[..], [];
    var i, rest := count, n;
    assert BigEndian(n, count) + [] == BigEndian(n, count);
    while i > 0
      invariant 0 <= i <= count && |written| == count - i
      invariant BigEndian(n, count) == BigEndian(rest, i) + written
      invariant buffer[..] == before[..offset + i] + written + before[offset + count..]
    {
      i := i - 1;
      var b := (rest % 256) as byte;
      SetLast(before[..offset + i + 1], written, before[offset + count..], b);
      BigEndianStep(rest, i, written);
      buffer[offset + i] := b;
      written := [b] + written;
      rest := rest / 256;
    }
  }

  lemma SetLast(front: Bytes, written: Bytes, back: Bytes, b: byte)
    requires |front| > 0
    ensures (front + written + back)[|front| - 1 := b] == front[..|front| - 1] + ([b] + written) + back
  {
  }

  lemma BigEndianStep(n: nat, count: nat, tail: Bytes)
    ensures BigEndian(n, count + 1) + tail == BigEndian(n / 256, count) + ([(n % 256) as byte] + tail)
  {
  }

  method EncodeFrame(opcode: byte, payload: Bytes) returns (frame: Bytes)
    requires opcode < 16
    ensures frame == Encoded(opcode, payload)
  {
    var length := |payload|;
    var header;
    if length < 126 {
      header := new byte[2];
      header[0], header[1] := 128 + opcode, length as byte;
      assert header[..] == [128 + opcode] + LengthField(length, 0);
    } else if length < 65536 {
      header := new byte[4];
      header[0], header[1] := 128 + opcode, 126;
      assert header[..2] == [128 + opcode, 126];
      WriteBigEndian(header, length, 2, 2);
      assert header[..] == [128 + opcode] + LengthField(length, 0);
    } else {
      header := new byte[10];
      header[0], header[1] := 128 + opcode, 127;
      assert header[..2] == [128 + opcode, 127];
      WriteBigEndian(header, length, 2, 8);
      assert header[..] == [128 + opcode] + LengthField(length, 0);
    }
    frame := header[..] + payload;
  }

  // ----- Parsing -----

  datatype Frame = Frame(opcode: byte, payload: Bytes)

  datatype ParseResult = NeedMore | TooLarge | Complete(frame: Frame, consumed: nat)

  /** The declared length and where the length field ends, or that it is incomplete. */
  function DeclaredLength(buffer: Bytes): Option<(nat, nat)>
    requires |buffer| >= 2
  {
    var short := buffer[1] % 128;
    if short == 126 then
      if |buffer| < 4 then None else Some((Number(buffer[2..4]), 4))
    else if short == 127 then
      if |buffer| < 10 then None else Some((Number(buffer[2..10]), 10))
    else Some((short as nat, 2))
  }

  /** The frame behind a length field, when all of it has arrived. */
  function Body(buffer: Bytes, opcode: byte, masked: bool, length: nat, offset: nat): ParseResult {
    var start := if masked then offset + 4 else offset;
    if |buffer| < start + length then NeedMore
    else
      var payload := buffer[start..start + length];
      Complete(Frame(opcode, if masked then Masked(payload, buffer[offset..start]) else payload), start + length)
  }

  /** One frame off the front. A declared length above the bound is refused as soon as it is known. */
  function Parse(buffer: Bytes, maxBytes: nat): ParseResult {
    if |buffer| < 2 then NeedMore
    else
      var declared := DeclaredLength(buffer);
      if declared.None? then NeedMore
      else if declared.value.0 > maxBytes then TooLarge
      else Body(buffer, buffer[0] % 16, buffer[1] >= 128, declared.value.0, declared.value.1)
  }

  /** Unmask a payload in place. */
  method Unmask(payload: array<byte>, key: Bytes)
    requires |key| == 4
    modifies payload
    ensures payload[..] == Masked(old(payload[..]), key)
  {
    var i := 0;
    while i < payload.Length
      invariant 0 <= i <= payload.Length
      invariant forall j :: 0 <= j < i ==> payload[j] == Xor(old(payload[j]), key[j % 4])
      invariant forall j :: i <= j < payload.Length ==> payload[j] == old(payload[j])
    {
      payload[i] := Xor(payload[i], key[i % 4]);
      i := i + 1;
    }
  }

  method ParseWsFrame(buffer: Bytes, maxBytes: nat) returns (result: ParseResult)
    ensures result == Parse(buffer, maxBytes)
  {
    if |buffer| < 2 {
      return NeedMore;
    }
    var opcode, masked, length, offset := buffer[0] % 16, buffer[1] >= 128, (buffer[1] % 128) as nat, 2;
    if length == 126 {
      if |buffer| < 4 {
        return NeedMore;
      }
      length, offset := Number(buffer[2..4]), 4;
    } else if length == 127 {
      if |buffer| < 10 {
        return NeedMore;
      }
      var big := Number(buffer[2..10]);
      if big > maxBytes {
        return TooLarge;
      }
      length, offset := big, 10;
    }
    if length > maxBytes {
      return TooLarge;
    }
    result := ReadBody(buffer, opcode, masked, length, offset);
  }

  method ReadBody(buffer: Bytes, opcode: byte, masked: bool, length: nat, offset: nat) returns (result: ParseResult)
    ensures result == Body(buffer, opcode, masked, length, offset)
  {
    var start, key: Bytes := offset, [];
    if masked {
      if |buffer| < offset + 4 {
        return NeedMore;
      }
      key, start := buffer[offset..offset + 4], offset + 4;
    }
    if |buffer| < start + length {
      return NeedMore;
    }
    var payload := new byte[length](i requires 0 <= i < length => buffer[start + i]);
    assert payload[..] == buffer[start..start + length];
    if masked {
      Unmask(payload, key);
    }
    result := Complete(Frame(opcode, payload[..]), start + length);
  }
}
