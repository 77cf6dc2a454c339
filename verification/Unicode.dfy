/** Scalar values, their UTF-16 and UTF-8 forms, and the ASCII signs that several modules read. */
module Unicode {
  type Unit = u: int | 0 <= u < 0x10000
  type Byte = b: int | 0 <= b < 0x100

  // A Unicode scalar value.
  type Scalar = c: int | 0 <= c < 0xD800 || 0xE000 <= c < 0x110000

  const LINE_FEED: Byte := 0x0A
  const QUOTE: Byte := 0x22
  const COLON: Byte := 0x3A
  const BACKSLASH: Byte := 0x5C
  const BACKTICK: Byte := 0x60
  const BRACE: Byte := 0x7B
  const UNBRACE: Byte := 0x7D

  predicate High(u: Unit) { 0xD800 <= u < 0xDC00 }
  predicate Low(u: Unit) { 0xDC00 <= u < 0xE000 }

  function Combine(h: Unit, l: Unit): Scalar
    requires High(h) && Low(l)
  {
    0x10000 + (h - 0xD800) * 0x400 + (l - 0xDC00)
  }

  function Utf16(c: Scalar): (r: seq<Unit>)
    ensures 1 <= |r| <= 2
  {
    if c < 0x10000 then [c] else [0xD800 + (c - 0x10000) / 0x400, 0xDC00 + (c - 0x10000) % 0x400]
  }

  function Utf8(c: Scalar): (r: seq<Byte>)
    ensures 1 <= |r| <= 4
  {
    if c < 0x80 then [c]
    else if c < 0x800 then [0xC0 + c / 0x40, 0x80 + c % 0x40]
    else if c < 0x10000 then [0xE0 + c / 0x1000, 0x80 + c / 0x40 % 0x40, 0x80 + c % 0x40]
    else [0xF0 + c / 0x40000, 0x80 + c / 0x1000 % 0x40, 0x80 + c / 0x40 % 0x40, 0x80 + c % 0x40]
  }

  // A first byte that tells how many follow, and six bits in each of these.
  function Utf8Value(r: seq<Byte>): int
    requires 1 <= |r| <= 4
  {
    if |r| == 1 then r[0]
    else if |r| == 2 then (r[0] as int - 192) * 64 + Six(r[1])
    else if |r| == 3 then (r[0] as int - 224) * 4096 + Six(r[1]) * 64 + Six(r[2])
    else (r[0] as int - 240) * 262_144 + Six(r[1]) * 4096 + Six(r[2]) * 64 + Six(r[3])
  }

  function Six(b: Byte): int { b as int - 128 }

  // The shortest form (section 3 of RFC 3629).
  lemma Utf8Reads(c: Scalar)
    ensures var r := Utf8(c);
      && (c < 0x80 <==> |r| == 1) && (c < 0x800 <==> |r| <= 2) && (c < 0x1_0000 <==> |r| <= 3)
      && (forall i: nat {:trigger r[i]} :: 0 < i < |r| ==> 0x80 <= r[i] < 0xC0)
      && Utf8Value(r) == c
  {
    if 0x800 <= c < 0x1_0000 { SixBits(c, 0x1000); }
    if 0x1_0000 <= c {
      SixBits(c, 0x1000);
      SixBits(c, 0x4_0000);
    }
  }

  lemma SixBits(n: nat, size: nat)
    requires size == 0x1000 || size == 0x4_0000
    ensures n / (size / 64) == n / size * 64 + n / (size / 64) % 64
  { }
}
