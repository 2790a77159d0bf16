/**
 `FourCharCode`: the 32-bit code Audio Units use for types, subtypes and
 manufacturers, built from a four-character string and turned back into one.
 Swift strings are modelled as sequences of Unicode scalars; a grapheme
 cluster of several scalars is not distinguished from its scalars.
 */
module FourCharCode {
  import opened Optional

  type Byte = n: nat | n < 0x100
  type Code = n: nat | n < 0x1_0000_0000

  /** `0x3F3F3F3F`, the code of `"????"` returned for every rejected string. */
  const InvalidCode: Code := 0x3F3F3F3F

  /** `Character.isPrintableASCII`: the character has an ASCII value in 32..<127. */
  predicate IsPrintableASCII(c: char)
  {
    32 <= c as int < 127
  }

  /** The UTF-8 encoding of one Unicode scalar (one to four bytes). */
  function EncodeScalar(c: char): (r: seq<Byte>)
    ensures 1 <= |r| <= 4
    ensures |r| == 1 <==> c as int < 0x80
    ensures |r| == 1 ==> r[0] == c as int
  {
    var cp := c as int;
    if cp < 0x80 then [cp]
    else if cp < 0x800 then [0xC0 + cp / 0x40, 0x80 + cp % 0x40]
    else if cp < 0x1_0000 then [0xE0 + cp / 0x1000, 0x80 + (cp / 0x40) % 0x40, 0x80 + cp % 0x40]
    else [0xF0 + cp / 0x4_0000, 0x80 + (cp / 0x1000) % 0x40, 0x80 + (cp / 0x40) % 0x40, 0x80 + cp % 0x40]
  }

  /** `String.utf8`: the UTF-8 bytes of a whole string; never shorter than the string. */
  function Utf8(s: string): (r: seq<Byte>)
    ensures |r| >= |s|
    ensures |r| == |s| <==> forall i :: 0 <= i < |s| ==> s[i] as int < 0x80
  {
    if s == [] then [] else
      var rest := Utf8(s[1..]);
      assert forall i :: 1 <= i < |s| ==> s[i] == s[1..][i - 1];
      EncodeScalar(s[0]) + rest
  }

  /** Four base-256 digits, most significant first. */
  function Word(d0: int, d1: int, d2: int, d3: int): int
  {
    ((d0 * 0x100 + d1) * 0x100 + d2) * 0x100 + d3
  }

  /** A well-formed string for `init(_:)`: four printable ASCII characters. */
  predicate Valid(s: string)
  {
    |s| == 4 && |Utf8(s)| == 4 && forall i :: 0 <= i < |s| ==> IsPrintableASCII(s[i])
  }

  /** One step of the `reduce`: `acc << 8 + byte` on 32 bits, where the shift drops the top byte. */
  function ShiftIn(acc: Code, b: Byte): (r: Code)
    ensures r == (acc * 0x100) % 0x1_0000_0000 + b
  {
    (acc % 0x100_0000) * 0x100 + b
  }

  /** `reduce(into: acc)` over a byte sequence, first byte first. */
  function Pack(bytes: seq<Byte>, acc: Code): Code
    decreases |bytes|
  {
    if bytes == [] then acc else Pack(bytes[1..], ShiftIn(acc, bytes[0]))
  }

  /**
   `FourCharCode.init(_:)` through `validate`: a string of four printable
   ASCII characters packs into a code with its first character in the high
   byte; any other string yields `'????'`.
   */
  function FromString(s: string): (r: Code)
    ensures !Valid(s) ==> r == InvalidCode
    ensures Valid(s) ==> r == Word(s[0] as int, s[1] as int, s[2] as int, s[3] as int)
  {
    if !Valid(s) then InvalidCode
    else
      ValidBytes(s);
      PackFour(Utf8(s));
      Pack(Utf8(s), 0)
  }

  /** Packing four bytes from zero places them base-256, first byte highest. */
  lemma PackFour(b: seq<Byte>)
    requires |b| == 4
    ensures Pack(b, 0) == Word(b[0], b[1], b[2], b[3])
  {
    var a1 := ShiftIn(0, b[0]);
    assert a1 == b[0];
    var a2 := ShiftIn(a1, b[1]);
    assert a2 == b[0] as int * 0x100 + b[1];
    var a3 := ShiftIn(a2, b[2]);
    assert a3 == (b[0] as int * 0x100 + b[1]) * 0x100 + b[2];
    var a4 := ShiftIn(a3, b[3]);
    assert a4 == Word(b[0], b[1], b[2], b[3]);
    assert b[1..][1..][1..][1..] == [];
    calc {
      Pack(b, 0);
      Pack(b[1..], a1);
      Pack(b[1..][1..], a2);
      Pack(b[1..][1..][1..], a3);
      Pack(b[1..][1..][1..][1..], a4);
    }
  }

  /** The UTF-8 bytes of a valid string are its character codes. */
  lemma ValidBytes(s: string)
    requires Valid(s)
    ensures Utf8(s) == [s[0] as int, s[1] as int, s[2] as int, s[3] as int]
  {
    var u0 := Utf8(s[3..]);
    assert s[3..][1..] == [];
    assert u0 == [s[3] as int];
    assert s[2..][1..] == s[3..];
    assert s[1..][1..] == s[2..];
    assert Utf8(s[2..]) == [s[2] as int, s[3] as int];
    assert Utf8(s[1..]) == [s[1] as int, s[2] as int, s[3] as int];
  }

  /** A rejected string of any length gives the same code as `"????"` itself. */
  lemma InvalidMatchesQuestionMarks(s: string)
    requires !Valid(s)
    ensures FromString(s) == FromString("????")
  {
    assert Valid("????") by { ValidBytesDirect("????"); }
  }

  lemma ValidBytesDirect(s: string)
    requires |s| == 4 && forall i :: 0 <= i < |s| ==> IsPrintableASCII(s[i])
    ensures Valid(s)
  {
    assert forall i :: 0 <= i < |s| ==> s[i] as int < 0x80;
  }

  /** The four bytes of a code in memory order after `bigEndian`: high byte first. */
  function BigEndianBytes(c: Code): (r: seq<Byte>)
    ensures |r| == 4
    ensures Word(r[0], r[1], r[2], r[3]) == c
  {
    var q1 := c / 0x100;
    var q2 := q1 / 0x100;
    var q3 := q2 / 0x100;
    assert q3 < 0x100;
    [q3, q2 % 0x100, q1 % 0x100, c % 0x100]
  }

  predicate IsContinuation(b: Byte) { 0x80 <= b < 0xC0 }

  /**
   `String(bytes:encoding: .utf8)`: decode well-formed UTF-8 (shortest forms
   only, no surrogates, nothing above U+10FFFF); `None` for anything else.
   */
  function DecodeUtf8(b: seq<Byte>): (r: Option<string>)
    ensures r.Some? ==> |r.value| <= |b|
    decreases |b|
  {
    if b == [] then Some([])
    else
      var b0 := b[0] as int;
      var (cp, n) :=
        if b0 < 0x80 then (b0, 1)
        else if 0xC2 <= b0 < 0xE0 && |b| >= 2 && IsContinuation(b[1]) then
          ((b0 - 0xC0) * 0x40 + (b[1] as int - 0x80), 2)
        else if 0xE0 <= b0 < 0xF0 && |b| >= 3 && IsContinuation(b[1]) && IsContinuation(b[2]) then
          (((b0 - 0xE0) * 0x40 + (b[1] as int - 0x80)) * 0x40 + (b[2] as int - 0x80), 3)
        else if 0xF0 <= b0 < 0xF5 && |b| >= 4 && IsContinuation(b[1]) && IsContinuation(b[2]) && IsContinuation(b[3]) then
          ((((b0 - 0xF0) * 0x40 + (b[1] as int - 0x80)) * 0x40 + (b[2] as int - 0x80)) * 0x40 + (b[3] as int - 0x80), 4)
        else (0, 0);
      if n == 0 then None
      else if (n == 3 && cp < 0x800) || (n == 4 && cp < 0x1_0000) || cp >= 0x11_0000 || 0xD800 <= cp < 0xE000 then None
      else match DecodeUtf8(b[n..])
        case None => None
        case Some(rest) => Some([cp as char] + rest)
  }

  /**
   `stringValue`: the code's big-endian bytes read as UTF-8. Swift force-unwraps
   the decoded string, so `None` here is the case where the program stops.
   */
  function StringValue(c: Code): Option<string>
  {
    DecodeUtf8(BigEndianBytes(c))
  }

  /** Bytes below 0x80 decode one character each. */
  lemma {:induction false} AsciiDecode(b: seq<Byte>)
    requires forall i :: 0 <= i < |b| ==> b[i] < 0x80
    ensures DecodeUtf8(b).Some?
    ensures |DecodeUtf8(b).value| == |b|
    ensures forall i :: 0 <= i < |b| ==> DecodeUtf8(b).value[i] as int == b[i]
  {
    if b != [] {
      AsciiDecode(b[1..]);
    }
  }

  /** The round trip: a valid string comes back from its code unchanged. */
  lemma StringValueRoundTrip(s: string)
    requires Valid(s)
    ensures StringValue(FromString(s)) == Some(s)
  {
    var c := FromString(s);
    var b := BigEndianBytes(c);
    DigitsUnique(b[0], b[1], b[2], b[3], s[0] as int, s[1] as int, s[2] as int, s[3] as int);
    AsciiDecode(b);
    var t := DecodeUtf8(b).value;
    assert forall i :: 0 <= i < 4 ==> t[i] as int == s[i] as int;
    assert t == s;
  }

  /** Base-256 digits of a number are unique. */
  lemma DigitsUnique(a0: Byte, a1: Byte, a2: Byte, a3: Byte, b0: Byte, b1: Byte, b2: Byte, b3: Byte)
    requires Word(a0, a1, a2, a3) == Word(b0, b1, b2, b3)
    ensures a0 == b0 && a1 == b1 && a2 == b2 && a3 == b3
  {
    var x := (a0 as int * 0x100 + a1) * 0x100 + a2;
    var y := (b0 as int * 0x100 + b1) * 0x100 + b2;
    assert a3 == b3 && x == y;
    var p := a0 as int * 0x100 + a1;
    var q := b0 as int * 0x100 + b1;
    assert a2 == b2 && p == q;
  }

  /** The rejected code reads back as `"????"`. */
  lemma InvalidCodeString()
    ensures StringValue(InvalidCode) == Some("????")
  {
    var b := BigEndianBytes(InvalidCode);
    assert b == [0x3F, 0x3F, 0x3F, 0x3F];
    AsciiDecode(b);
    var t := DecodeUtf8(b).value;
    assert forall i :: 0 <= i < 4 ==> t[i] as int == '?' as int;
    assert t == "????";
  }
}
