/**
 `DelayBuffer<T>`: a ring of samples whose size is a power of two. Writes go
 to the write position, which then moves on by one and wraps by masking with
 `size - 1`; reads look back a number of samples from the write position,
 with linear interpolation between neighbouring samples for fractional delays.
 */
module DelayBuffer {
  import ConstMath
  import DSP

  /** `2^k`. */
  function Pow2(k: nat): (r: nat)
    ensures r >= 1
  {
    if k == 0 then 1 else 2 * Pow2(k - 1)
  }

  ghost predicate IsPowerOf2(n: nat)
  {
    exists k: nat :: Pow2(k) == n
  }

  /** `size_t` holds values modulo `2^64`. */
  const SizeModulus: nat := 0x1_0000_0000_0000_0000

  /** The bitwise `&` of two unsigned integers, bit by bit from the lowest. */
  function BitAnd(a: nat, b: nat): nat
    decreases a
  {
    if a == 0 || b == 0 then 0
    else 2 * BitAnd(a / 2, b / 2) + (if a % 2 == 1 && b % 2 == 1 then 1 else 0)
  }

  /** If `x == d * q + r` with `0 <= r < d`, then `r` is `x % d` and `q` is `x / d`. */
  lemma DivModUnique(x: int, d: int, q: int, r: int)
    requires d > 0 && 0 <= r < d && x == d * q + r
    ensures x % d == r && x / d == q
  {
    var z := q - x / d;
    assert d * z == x % d - r;
  }

  /** The remainder modulo `2p` from the remainder of the halved value modulo `p` and the low bit. */
  lemma HalfMod(x: nat, p: nat)
    requires p > 0
    ensures x % (2 * p) == 2 * ((x / 2) % p) + x % 2
  {
    var q := (x / 2) / p;
    var r := (x / 2) % p;
    assert x / 2 == p * q + r;
    assert (2 * p) * q == 2 * (p * q);
    assert x == (2 * p) * q + (2 * r + x % 2);
    DivModUnique(x, 2 * p, q, 2 * r + x % 2);
  }

  /** Masking with `2^k - 1` keeps the low `k` bits: the remainder modulo `2^k`. */
  lemma {:induction false} MaskIsMod(x: nat, k: nat)
    ensures BitAnd(x, Pow2(k) - 1) == x % Pow2(k)
    decreases k
  {
    var m := Pow2(k) - 1;
    if k == 0 {
      assert m == 0;
      DivModUnique(x, 1, x, 0);
    } else if x == 0 {
      DivModUnique(0, Pow2(k), 0, 0);
    } else {
      MaskIsMod(x / 2, k - 1);
      MaskStep(x, Pow2(k - 1));
    }
  }

  /** One bit more: masking with `2p - 1` from masking the halved value with `p - 1`. */
  lemma MaskStep(x: nat, p: nat)
    requires x > 0 && p > 0
    requires BitAnd(x / 2, p - 1) == (x / 2) % p
    ensures BitAnd(x, 2 * p - 1) == x % (2 * p)
  {
    DivModUnique(2 * p - 1, 2, p - 1, 1);
    assert BitAnd(x, 2 * p - 1) == 2 * BitAnd(x / 2, p - 1) + x % 2;
    HalfMod(x, p);
  }

  /** Reducing modulo `m * n` first does not change the remainder modulo `m`. */
  lemma ModOfMod(x: int, m: int, n: int)
    requires m > 0 && n > 0
    ensures (x % (m * n)) % m == x % m
  {
    var q := x / (m * n);
    var r := x % (m * n);
    assert x == m * (n * q) + r;
    DivModUnique(r, m, r / m, r % m);
    DivModUnique(x, m, n * q + r / m, r % m);
  }

  lemma {:induction false} Pow2Divides(k: nat, j: nat)
    requires k <= j
    ensures Pow2(j) == Pow2(k) * Pow2(j - k)
    decreases j
  {
    if k < j {
      Pow2Divides(k, j - 1);
    }
  }

  /**
   `smallestPowerOf2For`: `2^ceil(log2(max(value, 1)))`, the smallest power of
   two not below the requested size (and at least 1).
   */
  function SmallestPowerOf2For(value: real): (n: nat)
    ensures IsPowerOf2(n) && n as real >= value && n >= 1
    ensures n == 1 || (n / 2) as real < value
  {
    PowerAtLeast(value, 0)
  }

  /** The first power `2^k`, from `2^k0` upwards, that is at least `value`. */
  function PowerAtLeast(value: real, k0: nat): (n: nat)
    requires k0 == 0 || (Pow2(k0) / 2) as real < value
    ensures IsPowerOf2(n) && n as real >= value && n >= Pow2(k0)
    ensures n == Pow2(k0) || (n / 2) as real < value
    decreases if Pow2(k0) as real >= value then 0 else value.Floor + 1 - Pow2(k0)
  {
    if Pow2(k0) as real >= value then Pow2(k0)
    else PowerAtLeast(value, k0 + 1)
  }

  /** The ring as values: the contents after one `write` and the next write position. */
  function WriteSeq(s: seq<real>, pos: nat, value: real): (r: (seq<real>, nat))
    requires pos < |s|
    ensures |r.0| == |s| && r.1 < |s|
  {
    (s[pos := value], (pos + 1) % |s|)
  }

  /** A run of `write`s, in order. */
  function WriteAll(s: seq<real>, pos: nat, values: seq<real>): (r: (seq<real>, nat))
    requires pos < |s|
    ensures |r.0| == |s| && r.1 < |s|
    decreases |values|
  {
    if values == [] then (s, pos)
    else
      var prev := WriteAll(s, pos, values[..|values| - 1]);
      WriteSeq(prev.0, prev.1, values[|values| - 1])
  }

  /** The slot `readFromOffset(offset)` reads: `offset + 1` places behind the write position, around the ring. */
  function Slot(pos: nat, offset: int, size: nat): (i: nat)
    requires size > 0
    ensures i < size
  {
    (pos - 1 - offset) % size
  }

  /** Moving the write position one on moves every slot one on. */
  lemma SlotAfterWrite(pos: nat, k: nat, size: nat)
    requires pos < size && 0 < k < size
    ensures Slot((pos + 1) % size, k, size) == Slot(pos, k - 1, size)
    ensures Slot(pos, k - 1, size) != pos
  {
    if pos + 1 < size {
      DivModUnique(pos + 1, size, 0, pos + 1);
    } else {
      DivModUnique(pos + 1, size, 1, 0);
      DivModUnique(-1 - k, size, -1, size - 1 - k);
    }
    SlotBehind(pos, k, size);
  }

  /** The slot `k` places behind `pos`, around the ring. */
  lemma SlotBehind(pos: nat, k: nat, size: nat)
    requires pos < size && 0 < k < size
    ensures Slot(pos, k - 1, size) == if pos >= k then pos - k else pos - k + size
  {
    if pos >= k {
      DivModUnique(pos - k, size, 0, pos - k);
    } else {
      DivModUnique(pos - k, size, -1, pos - k + size);
    }
  }

  /** `readFromOffset(k)` for `k < size` returns the sample written `k + 1` writes ago. */
  lemma {:induction false} ReadsBackHistory(s: seq<real>, pos: nat, values: seq<real>, k: nat)
    requires pos < |s| && k < |s| && k < |values|
    ensures var r := WriteAll(s, pos, values);
      r.0[Slot(r.1, k, |s|)] == values[|values| - 1 - k]
    decreases |values|
  {
    var n := |values|;
    var prev := WriteAll(s, pos, values[..n - 1]);
    if k == 0 {
      DivModUnique(prev.1, |s|, 0, prev.1);
      if prev.1 + 1 < |s| {
        DivModUnique(prev.1 + 1, |s|, 0, prev.1 + 1);
      } else {
        DivModUnique(prev.1 + 1, |s|, 1, 0);
        DivModUnique(-1, |s|, -1, |s| - 1);
      }
    } else {
      SlotAfterWrite(prev.1, k, |s|);
      ReadsBackHistory(s, pos, values[..n - 1], k - 1);
      assert values[..n - 1][n - 1 - 1 - (k - 1)] == values[n - 1 - k];
    }
  }

  /** `DelayBuffer`. */
  class DelayBuffer {
    const buffer: array<real>
    const wrapMask: nat
    var writePos: nat

    /** The size is a power of two that `size_t` can hold, the mask is one less, and the write position is inside. */
    ghost predicate Valid()
      reads this
    {
      buffer.Length == wrapMask + 1 && writePos < buffer.Length
      && exists k: nat :: k <= 64 && Pow2(k) == buffer.Length
    }

    function Size(): nat
      reads this
    {
      buffer.Length
    }

    function Contents(): seq<real>
      reads this, buffer
    {
      buffer[..]
    }

    /** A zero-filled buffer of `smallestPowerOf2For(sizeInSamples)` samples, writing at 0. */
    constructor(sizeInSamples: real)
      requires sizeInSamples <= SizeModulus as real
      ensures Valid()
      ensures Size() == SmallestPowerOf2For(sizeInSamples) && writePos == 0
      ensures forall i :: 0 <= i < buffer.Length ==> buffer[i] == 0.0
      ensures fresh(buffer)
    {
      var n := SmallestPowerOf2For(sizeInSamples);
      buffer := new real[n](_ => 0.0);
      wrapMask := n - 1;
      writePos := 0;
      new;
      var k: nat :| Pow2(k) == n;
      ExponentAtMost64(k, sizeInSamples);
    }

    /** `clear`: every slot becomes 0. */
    method Clear()
      requires Valid()
      modifies buffer
      ensures Valid() && writePos == old(writePos)
      ensures forall i :: 0 <= i < buffer.Length ==> buffer[i] == 0.0
    {
      var i := 0;
      while i < buffer.Length
        invariant 0 <= i <= buffer.Length
        invariant forall j :: 0 <= j < i ==> buffer[j] == 0.0
      {
        buffer[i] := 0.0;
        i := i + 1;
      }
    }

    /** The wrap mask of a valid buffer reduces modulo the size. */
    lemma MaskReduces(x: nat)
      requires Valid()
      ensures BitAnd(x, wrapMask) == x % buffer.Length
    {
      var k: nat :| k <= 64 && Pow2(k) == buffer.Length;
      MaskIsMod(x, k);
    }

    /** `write`: the sample goes to the write position, which moves on by one around the ring. */
    method Write(value: real)
      requires Valid()
      modifies this, buffer
      ensures Valid()
      ensures (Contents(), writePos) == WriteSeq(old(Contents()), old(writePos), value)
    {
      buffer[writePos] := value;
      MaskReduces(writePos + 1);
      writePos := BitAnd(writePos + 1, wrapMask);
    }

    /**
     `readFromOffset(offset)`: the unsigned difference `writePos - 1 - offset`,
     masked; this is the slot `offset + 1` places behind the write position.
     */
    function ReadFromOffset(offset: int): (r: real)
      requires Valid()
      reads this, buffer
      ensures r == Contents()[Slot(writePos, offset, Size())]
    {
      var unsigned := (writePos - 1 - offset) % SizeModulus;
      MaskReduces(unsigned);
      var k: nat :| k <= 64 && Pow2(k) == buffer.Length;
      assert SizeModulus == Pow2(k) * Pow2(64 - k) by {
        Pow2Divides(k, 64);
        Pow2Is64();
      }
      ModOfMod(writePos - 1 - offset, Pow2(k), Pow2(64 - k));
      buffer[BitAnd(unsigned, wrapMask)]
    }

    /**
     `read(delay)` with linear interpolation: the whole part of the delay picks
     two neighbouring samples and the fractional part weighs them.
     */
    function Read(delay: real): (r: real)
      requires Valid()
      reads this, buffer
      ensures delay == (delay.Floor as real) ==> r == ReadFromOffset(delay.Floor)
      ensures delay >= 0.0 ==> var a, b := ReadFromOffset(delay.Floor), ReadFromOffset(delay.Floor + 1);
        (a <= b ==> a <= r <= b) && (b <= a ==> b <= r <= a)
    {
      var offset := ConstMath.Truncate(delay);
      ConstMath.TruncateWholeAndFloor(delay);
      DSP.Linear(delay - offset as real, ReadFromOffset(offset), ReadFromOffset(offset + 1))
    }
  }

  /** The power of two chosen for a size `size_t` can hold has an exponent of at most 64. */
  lemma ExponentAtMost64(k: nat, value: real)
    requires value <= SizeModulus as real
    requires Pow2(k) == 1 || (Pow2(k) / 2) as real < value
    ensures k <= 64
  {
    if k > 64 {
      Pow2Divides(65, k);
      Pow2Is64();
      assert false;
    }
  }

  /** `2^64` is the modulus of `size_t`. */
  lemma Pow2Is64()
    ensures Pow2(64) == SizeModulus
  {
    assert Pow2(8) == 0x100;
    Pow2Divides(8, 16);
    Pow2Divides(16, 32);
    Pow2Divides(32, 64);
  }
}
