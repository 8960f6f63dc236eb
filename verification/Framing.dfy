/** WebSocket frames as `scripts/feed-bakeoff/feed_bakeoff_v2.py` writes them (`_mask`, `_send`), against
    sections 5.2 and 5.3 of RFC 6455. */
module Framing {
  import opened Basics

  type Byte = bv8
  type Bytes = seq<Byte>

  /** A frame: final flag, four-bit opcode, payload. */
  datatype Frame = Frame(fin: bool, opcode: Byte, payload: Bytes)

  const LIMIT16: nat := 0x1_0000
  const LIMIT64: nat := 0x1_0000_0000_0000_0000

  ghost predicate ValidFrame(f: Frame) { f.opcode < 16 && |f.payload| < LIMIT64 }

  // ---------- big-endian integers ----------

  function Pow256(k: nat): nat { if k == 0 then 1 else 256 * Pow256(k - 1) }

  function BigEndian(n: nat, k: nat): (bs: Bytes)
    ensures |bs| == k
  {
    if k == 0 then [] else BigEndian(n / 256, k - 1) + [(n % 256) as bv8]
  }

  function FromBigEndian(bs: Bytes): nat {
    if bs == [] then 0 else FromBigEndian(bs[..|bs| - 1]) * 256 + bs[|bs| - 1] as int
  }

  lemma ByteOf(n: int)
    requires 0 <= n < 256
    ensures (n as bv8) as int == n
  {
    // one case per length in bits
    if n < 16 {} else if n < 32 {} else if n < 64 {} else if n < 128 {} else {}
  }

  lemma {:induction false} BigEndianRoundTrip(n: nat, k: nat)
    requires n < Pow256(k)
    ensures FromBigEndian(BigEndian(n, k)) == n
  {
    if k > 0 {
      BigEndianRoundTrip(n / 256, k - 1);
      ByteOf(n % 256);
      var bs := BigEndian(n, k);
      assert bs[..k - 1] == BigEndian(n / 256, k - 1);
    }
  }

  // ---------- masking ----------

  /** `bytes(b ^ m[i & 3])`. */
  function Masked(data: Bytes, key: Bytes): (r: Bytes)
    requires |key| == 4
  {
    seq(|data|, i requires 0 <= i < |data| => data[i] ^ key[i % 4])
  }

  lemma XorTwice(a: Byte, b: Byte)
    ensures (a ^ b) ^ b == a
  {
  }

  lemma MaskTwice(data: Bytes, key: Bytes)
    requires |key| == 4
    ensures Masked(Masked(data, key), key) == data
  {
    forall i | 0 <= i < |data| ensures Masked(Masked(data, key), key)[i] == data[i] {
      XorTwice(data[i], key[i % 4]);
    }
  }

  // ---------- length field ----------

  /** The second header byte and the extended length, with the mask bit in `bit`. */
  function LengthField(n: nat, bit: Byte): Bytes
    requires n < LIMIT64
  {
    if n < 126 then [bit | n as bv8]
    else if n < LIMIT16 then [bit | 126] + BigEndian(n, 2)
    else [bit | 127] + BigEndian(n, 8)
  }

  /** Reads a length field: the length and what follows it. */
  function ReadLength(s: Bytes): Option<(nat, Bytes)> {
    if s == [] then None
    else
      var code := s[0] & 0x7f;
      if code == 126 then (if |s| < 3 then None else Some((FromBigEndian(s[1..3]), s[3..])))
      else if code == 127 then (if |s| < 9 then None else Some((FromBigEndian(s[1..9]), s[9..])))
      else Some((code as int, s[1..]))
  }

  lemma LowBits(bit: Byte, x: Byte)
    requires (bit == 0 || bit == 0x80) && x < 0x80
    ensures (bit | x) & 0x7f == x && (bit | x) & 0x80 == bit
  {
  }

  lemma SmallLength(n: nat)
    requires n < 126
    ensures n as bv8 < 0x7e && (n as bv8) as int == n
  {
    ByteOf(n);
  }

  lemma Pow256Values()
    ensures Pow256(2) == LIMIT16 && Pow256(8) == LIMIT64
  {
    assert Pow256(4) == 0x1_0000_0000;
  }

  lemma LengthRoundTrip(n: nat, bit: Byte, rest: Bytes)
    requires n < LIMIT64 && (bit == 0 || bit == 0x80)
    ensures ReadLength(LengthField(n, bit) + rest) == Some((n, rest))
    ensures LengthField(n, bit)[0] & 0x80 == bit
  {
    var s := LengthField(n, bit) + rest;
    Pow256Values();
    if n < 126 {
      SmallLength(n);
      LowBits(bit, n as bv8);
      assert s[1..] == rest;
    } else if n < LIMIT16 {
      LowBits(bit, 126);
      BigEndianRoundTrip(n, 2);
      assert s[1..3] == BigEndian(n, 2) && s[3..] == rest;
    } else {
      LowBits(bit, 127);
      BigEndianRoundTrip(n, 8);
      assert s[1..9] == BigEndian(n, 8) && s[9..] == rest;
    }
  }

  // ---------- the bytes on the wire ----------

  /** The length field, byte by byte (section 5.2 of RFC 6455): the length itself below 126; 126
      and two bytes, or 127 and eight bytes, most significant first, above. */
  lemma FieldLayout(n: nat, bit: Byte)
    requires n < LIMIT64
    ensures var h := LengthField(n, bit);
      if n < 126 then |h| == 1 && h[0] == bit | n as bv8
      else if n < 65536 then |h| == 3 && h[0] == bit | 126 && h[1] as int * 256 + h[2] as int == n
      else |h| == 9 && h[0] == bit | 127 && Big(h[1], h[2], h[3], h[4]) * 0x1_0000_0000 + Big(h[5], h[6], h[7], h[8]) == n
  {
    Pow256Values();
    var h := LengthField(n, bit);
    if 126 <= n < LIMIT16 {
      BigEndianRoundTrip(n, 2);
      TwoBytes(h[1..]);
    } else if LIMIT16 <= n {
      BigEndianRoundTrip(n, 8);
      EightBytes(h[1..]);
    }
  }

  /** Four bytes as a number, most significant first. */
  function Big(a: Byte, b: Byte, c: Byte, d: Byte): int {
    a as int * 0x100_0000 + b as int * 0x1_0000 + c as int * 0x100 + d as int
  }

  lemma TwoBytes(bs: Bytes)
    requires |bs| == 2
    ensures FromBigEndian(bs) == bs[0] as int * 256 + bs[1] as int
  {
    assert FromBigEndian(bs[..0]) == 0;
    assert bs[..1][..0] == bs[..0];
    assert FromBigEndian(bs[..1]) == FromBigEndian(bs[..0]) * 256 + bs[0] as int;
  }

  lemma FourBytes(bs: Bytes)
    requires |bs| == 4
    ensures FromBigEndian(bs) == Big(bs[0], bs[1], bs[2], bs[3])
  {
    TwoBytes(bs[..2]);
    assert bs[..3][..2] == bs[..2];
    assert FromBigEndian(bs[..3]) == FromBigEndian(bs[..2]) * 256 + bs[2] as int;
  }

  lemma EightBytes(bs: Bytes)
    requires |bs| == 8
    ensures FromBigEndian(bs) == Big(bs[0], bs[1], bs[2], bs[3]) * 0x1_0000_0000 + Big(bs[4], bs[5], bs[6], bs[7])
  {
    FourBytes(bs[..4]);
    assert bs[..5][..4] == bs[..4] && bs[..6][..5] == bs[..5] && bs[..7][..6] == bs[..6];
    assert FromBigEndian(bs[..5]) == FromBigEndian(bs[..4]) * 256 + bs[4] as int;
    assert FromBigEndian(bs[..6]) == FromBigEndian(bs[..5]) * 256 + bs[5] as int;
    assert FromBigEndian(bs[..7]) == FromBigEndian(bs[..6]) * 256 + bs[6] as int;
  }

  // ---------- sending ----------

  /** What `_send` writes for a frame and a masking key; longer payloads do not fit the
      64-bit length. */
  function Send(opcode: Byte, data: Bytes, key: Bytes): Option<Bytes>
    requires |key| == 4
  {
    if |data| >= LIMIT64 then None
    else Some([0x80 | opcode] + LengthField(|data|, 0x80) + (key + Masked(data, key)))
  }

  /** The whole frame on the wire: final bit and opcode, masked length field, key, and every payload
      byte under the key byte at its place modulo four. */
  lemma SendLayout(opcode: Byte, data: Bytes, key: Bytes)
    requires |key| == 4 && |data| < LIMIT64
    ensures Send(opcode, data, key).Some?
    ensures var w := Send(opcode, data, key).value; var h := if |data| < 126 then 2 else if |data| < 65536 then 4 else 10;
      && |w| == h + 4 + |data|
      && w[0] == 0x80 | opcode && w[1..h] == LengthField(|data|, 0x80) && w[h..h + 4] == key
      && forall i :: 0 <= i < |data| ==> w[h + 4 + i] ^ w[h + i % 4] == data[i]
  {
    FieldLayout(|data|, 0x80);
    Joined([0x80 | opcode], LengthField(|data|, 0x80), key, Masked(data, key));
    var w, h := Send(opcode, data, key).value, 1 + |LengthField(|data|, 0x80)|;
    forall i | 0 <= i < |data| ensures w[h + 4 + i] ^ w[h + i % 4] == data[i] {
      assert w[h + 4 + i] == w[h + 4..][i] && w[h + i % 4] == w[h..h + 4][i % 4];
      XorTwice(data[i], key[i % 4]);
    }
  }

  lemma Joined(a: Bytes, b: Bytes, c: Bytes, d: Bytes)
    ensures var w, h := a + b + (c + d), |a| + |b|;
      && |w| == h + |c| + |d| && w[..|a|] == a && w[|a|..h] == b && w[h..h + |c|] == c && w[h + |c|..] == d
  {
  }

  /** A strict reader for one frame: reserved bits clear, shortest length form, payload
      unmasked with the key that follows when the mask bit is set. */
  function Decode(s: Bytes): Option<(Frame, Bytes)> {
    if |s| < 2 || s[0] & 0x70 != 0 then None
    else
      var len := ReadLength(s[1..]);
      if len.None? then None
      else
        var (n, body) := len.value;
        var code := s[1] & 0x7f;
        if (code == 126 && n < 126) || (code == 127 && n < LIMIT16) then None
        else if s[1] & 0x80 != 0 then
          if |body| < 4 + n then None
          else Some((Frame(s[0] & 0x80 != 0, s[0] & 0x0f, Masked(body[4..4 + n], body[..4])), body[4 + n..]))
        else
          if |body| < n then None
          else Some((Frame(s[0] & 0x80 != 0, s[0] & 0x0f, body[..n]), body[n..]))
  }

  lemma FirstByte(bit: Byte, opcode: Byte)
    requires (bit == 0 || bit == 0x80) && opcode < 16
    ensures (bit | opcode) & 0x70 == 0 && (bit | opcode) & 0x0f == opcode && (bit | opcode) & 0x80 == bit
  {
  }

  lemma LengthIsShortest(n: nat, bit: Byte)
    requires n < LIMIT64 && (bit == 0 || bit == 0x80)
    ensures var code := LengthField(n, bit)[0] & 0x7f;
      (code == 126 ==> n >= 126) && (code == 127 ==> n >= LIMIT16)
  {
    if n < 126 {
      SmallLength(n);
      LowBits(bit, n as bv8);
    } else if n < LIMIT16 {
      LowBits(bit, 126);
    } else {
      LowBits(bit, 127);
    }
  }

  lemma MaskedBody(data: Bytes, key: Bytes, rest: Bytes)
    requires |key| == 4
    ensures var body := key + Masked(data, key) + rest;
      && |body| >= 4 + |data| && body[4 + |data|..] == rest
      && Masked(body[4..4 + |data|], body[..4]) == data
  {
    var body := key + Masked(data, key) + rest;
    assert body[..4] == key && body[4..4 + |data|] == Masked(data, key);
    MaskTwice(data, key);
  }

  lemma SendShape(opcode: Byte, data: Bytes, key: Bytes, rest: Bytes)
    requires |key| == 4 && |data| < LIMIT64
    ensures Send(opcode, data, key).Some?
    ensures var s, field := Send(opcode, data, key).value + rest, LengthField(|data|, 0x80);
      |s| >= 2 && s[0] == 0x80 | opcode && s[1] == field[0] && s[1..] == field + (key + Masked(data, key) + rest)
  {
  }

  lemma DecodeMasked(s: Bytes, n: nat, body: Bytes)
    requires |s| >= 2 && s[0] & 0x70 == 0 && ReadLength(s[1..]) == Some((n, body))
    requires !(s[1] & 0x7f == 126 && n < 126) && !(s[1] & 0x7f == 127 && n < LIMIT16)
    requires s[1] & 0x80 == 0x80 && |body| >= 4 + n
    ensures Decode(s) == Some((Frame(s[0] & 0x80 != 0, s[0] & 0x0f, Masked(body[4..4 + n], body[..4])), body[4 + n..]))
  {
  }

  /** Decoding what `_send` wrote, with anything after it, gives back the opcode and the
      payload, in all three length classes and in the shortest form. */
  lemma SendRoundTrip(opcode: Byte, data: Bytes, key: Bytes, rest: Bytes)
    requires |key| == 4 && opcode < 16 && |data| < LIMIT64
    ensures Send(opcode, data, key).Some?
    ensures Decode(Send(opcode, data, key).value + rest) == Some((Frame(true, opcode, data), rest))
  {
    var body := key + Masked(data, key) + rest;
    SendShape(opcode, data, key, rest);
    LengthRoundTrip(|data|, 0x80, body);
    LengthIsShortest(|data|, 0x80);
    FirstByte(0x80, opcode);
    MaskedBody(data, key, rest);
    DecodeMasked(Send(opcode, data, key).value + rest, |data|, body);
  }
}
