/** The fixed-width bit sets of the render pipeline's core utilities
    (BitArray8, BitArray16, BitArray32 and BitArray64): each is one unsigned
    machine word whose bit k says whether index k is in the set. The structs
    are values, so every operation returns a new value. */
module BitArray {

  /** The C# `uint` of the index lists and of `capacity`. */
  type uint = bv32

  datatype Option<T> = None | Some(value: T)

  /** IBitArray: a bit set of any of the four widths. */
  datatype AnyBitArray =
    | Bits8(b8: BitArray8)
    | Bits16(b16: BitArray16)
    | Bits32(b32: BitArray32)
    | Bits64(b64: BitArray64)
  {
    function Capacity(): uint
    {
      match this
      case Bits8(b) => b.capacity
      case Bits16(b) => b.capacity
      case Bits32(b) => b.capacity
      case Bits64(b) => b.capacity
    }

    predicate Has(k: uint)
      requires k < Capacity()
    {
      match this
      case Bits8(b) => b.Has(k)
      case Bits16(b) => b.Has(k)
      case Bits32(b) => b.Has(k)
      case Bits64(b) => b.Has(k)
    }

    /** Whether a cast of `other` to this value's struct type succeeds. */
    predicate SameWidth(other: AnyBitArray)
    {
      (Bits8? && other.Bits8?) || (Bits16? && other.Bits16?) ||
      (Bits32? && other.Bits32?) || (Bits64? && other.Bits64?)
    }

    /** BitAnd: `this & (BitArrayN)other`; the cast fails (None) when the widths differ. */
    function BitAnd(other: AnyBitArray): (r: Option<AnyBitArray>)
      ensures r.None? <==> !SameWidth(other)
      ensures r.Some? ==> SameWidth(r.value) && r.value.Capacity() == Capacity()
      ensures r.Some? ==> forall k: uint :: k < Capacity() ==> (r.value.Has(k) <==> Has(k) && other.Has(k))
    {
      match (this, other)
      case (Bits8(a), Bits8(b)) => Some(Bits8(a.And(b)))
      case (Bits16(a), Bits16(b)) => Some(Bits16(a.And(b)))
      case (Bits32(a), Bits32(b)) => Some(Bits32(a.And(b)))
      case (Bits64(a), Bits64(b)) => Some(Bits64(a.And(b)))
      case _ => None
    }

    /** BitOr: `this | (BitArrayN)other`; the cast fails (None) when the widths differ. */
    function BitOr(other: AnyBitArray): (r: Option<AnyBitArray>)
      ensures r.None? <==> !SameWidth(other)
      ensures r.Some? ==> SameWidth(r.value) && r.value.Capacity() == Capacity()
      ensures r.Some? ==> forall k: uint :: k < Capacity() ==> (r.value.Has(k) <==> Has(k) || other.Has(k))
    {
      match (this, other)
      case (Bits8(a), Bits8(b)) => Some(Bits8(a.Or(b)))
      case (Bits16(a), Bits16(b)) => Some(Bits16(a.Or(b)))
      case (Bits32(a), Bits32(b)) => Some(Bits32(a.Or(b)))
      case (Bits64(a), Bits64(b)) => Some(Bits64(a.Or(b)))
      case _ => None
    }

    /** BitNot: `~this`, of the same width. */
    function BitNot(): (r: AnyBitArray)
      ensures SameWidth(r) && r.Capacity() == Capacity()
      ensures forall k: uint :: k < Capacity() ==> (r.Has(k) <==> !Has(k))
    {
      match this
      case Bits8(a) => Bits8(a.Not())
      case Bits16(a) => Bits16(a.Not())
      case Bits32(a) => Bits32(a.Not())
      case Bits64(a) => Bits64(a.Not())
    }
  }

  /** The argument of `Equals(object)`: a boxed bit set, or any other object (null included). */
  datatype Object = Boxed(value: AnyBitArray) | OtherObject

  /** Bit k of a natural number, counted from the least significant bit. */
  function NatBit(n: nat, k: nat): nat
  {
    if k == 0 then n % 2 else NatBit(n / 2, k - 1)
  }

  function Pow2(k: nat): nat
  {
    if k == 0 then 1 else 2 * Pow2(k - 1)
  }

  function Digit(b: nat): char
  {
    if b % 2 == 1 then '1' else '0'
  }

  /** Convert.ToString(n, 2): the shortest binary numeral of n, "0" for zero. */
  function ToBinary(n: nat): string
  {
    if n < 2 then [Digit(n)] else ToBinary(n / 2) + [Digit(n % 2)]
  }

  /** String.Format("{0,w}", s): s right-aligned in w columns, padded with spaces. */
  function PadLeft(s: string, w: nat): string
  {
    if |s| >= w then s else seq(w - |s|, _ => ' ') + s
  }

  /** s.Replace(' ', '0'). */
  function ReplaceSpaces(s: string): string
  {
    seq(|s|, i requires 0 <= i < |s| => if s[i] == ' ' then '0' else s[i])
  }

  /** Regex.Replace(s, ".{8}", "$0."): a dot after each complete run of 8
      characters, matched left to right; a shorter tail is kept as it is. */
  function DotAfterEach8(s: string): string
    decreases |s|
  {
    if |s| < 8 then s else s[..8] + "." + DotAfterEach8(s[8..])
  }

  /** s.TrimEnd(c): s without its trailing run of c. */
  function TrimEnd(s: string, c: char): string
    decreases |s|
  {
    if |s| > 0 && s[|s| - 1] == c then TrimEnd(s[..|s| - 1], c) else s
  }

  /** The w low bits of n as w binary digits, most significant first. */
  function FixedBinary(n: nat, w: nat): (r: string)
    ensures |r| == w
    ensures forall i :: 0 <= i < w ==> r[i] == Digit(NatBit(n, w - 1 - i))
  {
    if w == 0 then [] else FixedBinary(n / 2, w - 1) + [Digit(n % 2)]
  }

  /** r is s cut into groups of 8 characters with one '.' between
      neighbouring groups and none at the end. */
  ghost predicate GroupedBy8(r: string, s: string)
  {
    |s| % 8 == 0 && |s| > 0 &&
    |r| == |s| + |s| / 8 - 1 &&
    forall i :: 0 <= i < |r| ==> r[i] == if i % 9 == 8 then '.' else s[i - i / 9]
  }

  lemma {:induction false} Pow2Add(a: nat, b: nat)
    ensures Pow2(a + b) == Pow2(a) * Pow2(b)
    decreases a
  {
    if a > 0 {
      Pow2Add(a - 1, b);
      assert Pow2(a + b) == 2 * Pow2(a - 1 + b);
    }
  }

  /** 2^8, 2^16, 2^32 and 2^64: the value ranges of the four widths. */
  lemma Pow2Widths()
    ensures Pow2(8) == 0x100 && Pow2(16) == 0x1_0000
    ensures Pow2(32) == 0x1_0000_0000 && Pow2(64) == 0x1_0000_0000_0000_0000
  {
    assert Pow2(4) == 16;
    Pow2Add(4, 4);
    Pow2Add(8, 8);
    Pow2Add(16, 16);
    Pow2Add(32, 32);
  }

  lemma {:induction false} NatBitOfZero(k: nat)
    ensures NatBit(0, k) == 0
  {
    if k > 0 { NatBitOfZero(k - 1); }
  }

  /** A numeral of n < 2^w has at most w digits. */
  lemma {:induction false} BinaryLength(n: nat, w: nat)
    requires 1 <= w && n < Pow2(w)
    ensures |ToBinary(n)| <= w
    decreases w
  {
    if n >= 2 {
      assert w >= 2;
      BinaryLength(n / 2, w - 1);
    }
  }

  lemma PadDigit(t: string, d: char, w: nat)
    requires |t| + 1 <= w
    ensures PadLeft(t + [d], w) == PadLeft(t, w - 1) + [d]
  {
  }

  lemma ReplaceSpacesAppend(t: string, d: char)
    requires d != ' '
    ensures ReplaceSpaces(t + [d]) == ReplaceSpaces(t) + [d]
  {
  }

  /** The zero-padded numeral is exactly the w-digit binary form. */
  lemma {:induction false} PaddedBinary(n: nat, w: nat)
    requires 1 <= w && n < Pow2(w)
    ensures ReplaceSpaces(PadLeft(ToBinary(n), w)) == FixedBinary(n, w)
    decreases w
  {
    var r := ReplaceSpaces(PadLeft(ToBinary(n), w));
    var f := FixedBinary(n, w);
    if n < 2 {
      assert |r| == w;
      forall i | 0 <= i < w
        ensures r[i] == f[i]
      {
        if i < w - 1 { NatBitOfZero(w - 2 - i); }
      }
    } else {
      assert w >= 2;
      BinaryLength(n / 2, w - 1);
      PaddedBinary(n / 2, w - 1);
      PadDigit(ToBinary(n / 2), Digit(n % 2), w);
      ReplaceSpacesAppend(PadLeft(ToBinary(n / 2), w - 1), Digit(n % 2));
    }
  }

  /** String.Format("{0,w}", Convert.ToString(n, 2)).Replace(' ', '0'), the
      body of BitArray8.humanizedData: exactly w digits, most significant first. */
  function PaddedNumeral(n: nat, w: nat): (r: string)
    requires 1 <= w && n < Pow2(w)
    ensures r == FixedBinary(n, w)
  {
    PaddedBinary(n, w);
    ReplaceSpaces(PadLeft(ToBinary(n), w))
  }

  /** The padded numeral passed through Regex.Replace(".{8}", "$0.") and
      TrimEnd('.'), the body of the wider humanizedData. */
  function GroupedNumeral(n: nat, w: nat): (r: string)
    requires 0 < w && w % 8 == 0 && n < Pow2(w)
    ensures GroupedBy8(r, FixedBinary(n, w))
  {
    GroupedDigits(FixedBinary(n, w));
    TrimEnd(DotAfterEach8(PaddedNumeral(n, w)), '.')
  }

  /** The dotted string before TrimEnd: every group of 8 followed by '.'. */
  lemma {:induction false} DottedGroups(s: string)
    requires |s| % 8 == 0
    ensures |DotAfterEach8(s)| == |s| + |s| / 8
    ensures forall i :: 0 <= i < |DotAfterEach8(s)| ==>
      DotAfterEach8(s)[i] == if i % 9 == 8 then '.' else s[i - i / 9]
    decreases |s|
  {
    if |s| >= 8 {
      var d := DotAfterEach8(s[8..]);
      DottedGroups(s[8..]);
      assert DotAfterEach8(s) == s[..8] + "." + d;
      forall i | 9 <= i < |DotAfterEach8(s)|
        ensures DotAfterEach8(s)[i] == if i % 9 == 8 then '.' else s[i - i / 9]
      {
        assert DotAfterEach8(s)[i] == d[i - 9];
        assert (i - 9) % 9 == i % 9 && (i - 9) / 9 == i / 9 - 1;
      }
    }
  }

  lemma TrimOneDot(t: string)
    requires |t| > 0 && t[|t| - 1] != '.'
    ensures TrimEnd(t + ".", '.') == t
  {
    assert (t + ".")[..|t|] == t;
  }

  /** Regex.Replace(".{8}", "$0.") followed by TrimEnd('.') groups a digit
      string whose length is a multiple of 8. */
  lemma GroupedDigits(s: string)
    requires |s| % 8 == 0 && |s| > 0 && s[|s| - 1] != '.'
    ensures GroupedBy8(TrimEnd(DotAfterEach8(s), '.'), s)
  {
    DottedGroups(s);
    var d := DotAfterEach8(s);
    var t := d[..|d| - 1];
    assert d == t + ".";
    assert t[|t| - 1] == s[|s| - 1] by {
      assert (|d| - 2) % 9 == 7 && (|d| - 2) - (|d| - 2) / 9 == |s| - 1;
    }
    TrimOneDot(t);
  }

  // ----- BitArray8: 8 bits in one `byte` -----

  /** BitArray8; the constructor BitArray8(initValue) stores initValue as it is. */
  datatype BitArray8 = BitArray8(data: bv8)
  {
    const capacity: uint := 8

    /** Whether bit k is set, counted from the least significant bit. */
    predicate Has(k: uint)
      requires k < capacity
    {
      (data >> k) & 1 == 1
    }

    /** allFalse: no bit is set. */
    function AllFalse(): (r: bool)
      ensures r <==> forall k: uint :: k < capacity ==> !Has(k)
    {
      AllClear8(this);
      data == 0
    }

    /** allTrue: every bit is set. */
    function AllTrue(): (r: bool)
      ensures r <==> forall k: uint :: k < capacity ==> Has(k)
    {
      AllClear8(Not());
      data == 0xFF
    }

    /** operator ~. */
    function Not(): (r: BitArray8)
      ensures forall k: uint :: k < capacity ==> (r.Has(k) <==> !Has(k))
    {
      NotAll8(this);
      BitArray8(!data)
    }

    /** operator |. */
    function Or(b: BitArray8): (r: BitArray8)
      ensures forall k: uint :: k < capacity ==> (r.Has(k) <==> Has(k) || b.Has(k))
    {
      OrAll8(this, b);
      BitArray8(data | b.data)
    }

    /** operator &. */
    function And(b: BitArray8): (r: BitArray8)
      ensures forall k: uint :: k < capacity ==> (r.Has(k) <==> Has(k) && b.Has(k))
    {
      AndAll8(this, b);
      BitArray8(data & b.data)
    }

    /** operator ==: the same value, which is the same bits. */
    function Eq(b: BitArray8): (r: bool)
      ensures r <==> this == b
      ensures r <==> forall k: uint :: k < capacity ==> (Has(k) <==> b.Has(k))
    {
      SameBits8(this, b);
      data == b.data
    }

    /** operator !=. */
    function Neq(b: BitArray8): (r: bool)
      ensures r <==> !Eq(b)
    {
      data != b.data
    }

    /** Equals(object): true only for a boxed BitArray8 with the same data. */
    function Equals(obj: Object): (r: bool)
      ensures r <==> obj == Boxed(Bits8(this))
    {
      obj.Boxed? && obj.value.Bits8? && obj.value.b8.data == data
    }

    /** humanizedData: the numeral of `data` zero-padded to `capacity` digits. */
    function HumanizedData(): (r: string)
      ensures r == FixedBinary(data as nat, 8)
    {
      Pow2Widths();
      PaddedNumeral(data as nat, 8)
    }

    /** The constructor from an index list, walked from its last element
        to its first; indices of capacity or more are skipped and a null
        list leaves every bit clear. */
    static method FromIndexList(bitIndexTrue: Option<seq<uint>>) returns (r: BitArray8)
      ensures r == IndexListValue8(bitIndexTrue)
    {
      var data: bv8 := 0;
      if bitIndexTrue.None? {
        return BitArray8(data);
      }
      var s := bitIndexTrue.value;
      var index := |s| - 1;
      while index >= 0
        invariant -1 <= index < |s|
        invariant data == Mask8(s[index + 1..])
      {
        var bitIndex := s[index];
        if bitIndex >= 8 {
          MaskSkip8(data, s, index);
          index := index - 1;
          continue;
        }
        MaskOr8(data, s, index, bitIndex);
        data := data | ((1 as bv8) << bitIndex);
        index := index - 1;
      }
      assert s[0..] == s;
      r := BitArray8(data);
    }

  }

  /** What the index-list constructor builds: exactly the listed indices
      below 8 are set, and nothing for a null list. */
  function IndexListValue8(list: Option<seq<uint>>): (r: BitArray8)
    ensures forall k: uint :: k < 8 ==> (r.Has(k) <==> list.Some? && k in list.value)
  {
    if list.None? then
      MaskAll8([]);
      BitArray8(0)
    else
      MaskAll8(list.value);
      BitArray8(Mask8(list.value))
  }

  /** The bit the constructor ORs in for index i: none when i is out of range. */
  function IndexBit8(i: uint): bv8
  {
    if i >= 8 then 0 else (1 as bv8) << i
  }

  /** The bits a list of indices sets, folded from its end. */
  function Mask8(s: seq<uint>): bv8
  {
    if s == [] then 0 else Mask8(s[1..]) | IndexBit8(s[0])
  }

  /** Indices of capacity or more contribute nothing. */
  lemma MaskSkip8(data: bv8, s: seq<uint>, i: int)
    requires 0 <= i < |s| && s[i] >= 8
    requires data == Mask8(s[i + 1..])
    ensures data == Mask8(s[i..])
  {
    assert s[i..][1..] == s[i + 1..];
  }

  /** ORing in the bit of s[i] (here b) extends the mask by one element. */
  lemma MaskOr8(data: bv8, s: seq<uint>, i: int, b: uint)
    requires 0 <= i < |s| && b == s[i] && b < 8
    requires data == Mask8(s[i + 1..])
    ensures data | ((1 as bv8) << b) == Mask8(s[i..])
  {
    assert s[i..][1..] == s[i + 1..];
  }

  lemma OrBits8(a: BitArray8, b: BitArray8, k: uint)
    requires k < 8
    ensures BitArray8(a.data | b.data).Has(k) <==> a.Has(k) || b.Has(k)
  {
  }

  lemma NotBits8(a: BitArray8, k: uint)
    requires k < 8
    ensures BitArray8(!a.data).Has(k) <==> !a.Has(k)
  {
  }

  lemma AndBits8(a: BitArray8, b: BitArray8, k: uint)
    requires k < 8
    ensures BitArray8(a.data & b.data).Has(k) <==> a.Has(k) && b.Has(k)
  {
  }

  lemma NotAll8(a: BitArray8)
    ensures forall k: uint :: k < 8 ==> (BitArray8(!a.data).Has(k) <==> !a.Has(k))
  {
    forall k: uint | k < 8
      ensures BitArray8(!a.data).Has(k) <==> !a.Has(k)
    {
      NotBits8(a, k);
    }
  }

  lemma OrAll8(a: BitArray8, b: BitArray8)
    ensures forall k: uint :: k < 8 ==> (BitArray8(a.data | b.data).Has(k) <==> a.Has(k) || b.Has(k))
  {
    forall k: uint | k < 8
      ensures BitArray8(a.data | b.data).Has(k) <==> a.Has(k) || b.Has(k)
    {
      OrBits8(a, b, k);
    }
  }

  lemma AndAll8(a: BitArray8, b: BitArray8)
    ensures forall k: uint :: k < 8 ==> (BitArray8(a.data & b.data).Has(k) <==> a.Has(k) && b.Has(k))
  {
    forall k: uint | k < 8
      ensures BitArray8(a.data & b.data).Has(k) <==> a.Has(k) && b.Has(k)
    {
      AndBits8(a, b, k);
    }
  }

  lemma XorBits8(a: BitArray8, b: BitArray8, k: uint)
    requires k < 8
    ensures BitArray8(a.data ^ b.data).Has(k) <==> a.Has(k) != b.Has(k)
  {
  }

  lemma SingleBit8(i: uint, k: uint)
    requires k < 8
    ensures BitArray8(IndexBit8(i)).Has(k) <==> i == k
  {
  }

  /** One step of the fold: s[0] adds its own bit to the rest's mask. */
  lemma MaskStepBits8(s: seq<uint>, k: uint)
    requires s != [] && k < 8
    ensures BitArray8(Mask8(s)).Has(k) <==> BitArray8(Mask8(s[1..])).Has(k) || s[0] == k
  {
    OrBits8(BitArray8(Mask8(s[1..])), BitArray8(IndexBit8(s[0])), k);
    SingleBit8(s[0], k);
  }

  /** Bit k of the folded mask is set exactly when k is in the list. */
  lemma {:induction false} MaskBits8(s: seq<uint>, k: uint)
    requires k < 8
    ensures BitArray8(Mask8(s)).Has(k) <==> k in s
  {
    if s != [] {
      MaskBits8(s[1..], k);
      MaskStepBits8(s, k);
      assert s == [s[0]] + s[1..];
    }
  }

  lemma MaskAll8(s: seq<uint>)
    ensures forall k: uint :: k < 8 ==> (BitArray8(Mask8(s)).Has(k) <==> k in s)
  {
    forall k: uint | k < 8
      ensures BitArray8(Mask8(s)).Has(k) <==> k in s
    {
      MaskBits8(s, k);
    }
  }

  lemma {:induction false} ClearFrom8(a: BitArray8, m: uint)
    requires m <= 8
    requires forall j: uint :: m <= j < 8 ==> !a.Has(j)
    ensures a.data >> m == 0
    decreases 8 - m
  {
    if m < 8 {
      ClearFrom8(a, m + 1);
      assert !a.Has(m);
      assert (a.data >> m) >> 1 == a.data >> (m + 1);
    }
  }

  /** A value is zero exactly when none of its bits is set. */
  lemma AllClear8(a: BitArray8)
    ensures a.data == 0 <==> forall k: uint :: k < 8 ==> !a.Has(k)
  {
    if forall k: uint :: k < 8 ==> !a.Has(k) {
      ClearFrom8(a, 0);
    }
  }

  /** Two values are equal exactly when they agree on every bit. */
  lemma SameBits8(a: BitArray8, b: BitArray8)
    ensures a == b <==> forall k: uint :: k < 8 ==> (a.Has(k) <==> b.Has(k))
  {
    var x := BitArray8(a.data ^ b.data);
    forall k: uint | k < 8
      ensures x.Has(k) <==> a.Has(k) != b.Has(k)
    {
      XorBits8(a, b, k);
    }
    AllClear8(x);
  }

  /** ~ is an involution and turns allFalse into allTrue. */
  lemma NotNot8(a: BitArray8)
    ensures a.Not().Not() == a
    ensures a.Not().AllTrue() == a.AllFalse()
  {
  }

  /** | and & are commutative, and a & ~a has no bit set. */
  lemma OrAndLaws8(a: BitArray8, b: BitArray8)
    ensures a.Or(b) == b.Or(a) && a.And(b) == b.And(a)
    ensures a.And(a.Not()).AllFalse()
  {
  }

  /** ==, != and Equals agree. */
  lemma EqualityAgrees8(a: BitArray8, b: BitArray8)
    ensures a.Eq(b) == a.Equals(Boxed(Bits8(b)))
    ensures a.Neq(b) == !a.Equals(Boxed(Bits8(b)))
  {
  }

  // ----- BitArray16: 16 bits in one `ushort` -----

  /** BitArray16; the constructor BitArray16(initValue) stores initValue as it is. */
  datatype BitArray16 = BitArray16(data: bv16)
  {
    const capacity: uint := 16

    /** Whether bit k is set, counted from the least significant bit. */
    predicate Has(k: uint)
      requires k < capacity
    {
      (data >> k) & 1 == 1
    }

    /** allFalse: no bit is set. */
    function AllFalse(): (r: bool)
      ensures r <==> forall k: uint :: k < capacity ==> !Has(k)
    {
      AllClear16(this);
      data == 0
    }

    /** allTrue: every bit is set. */
    function AllTrue(): (r: bool)
      ensures r <==> forall k: uint :: k < capacity ==> Has(k)
    {
      AllClear16(Not());
      data == 0xFFFF
    }

    /** operator ~. */
    function Not(): (r: BitArray16)
      ensures forall k: uint :: k < capacity ==> (r.Has(k) <==> !Has(k))
    {
      NotAll16(this);
      BitArray16(!data)
    }

    /** operator |. */
    function Or(b: BitArray16): (r: BitArray16)
      ensures forall k: uint :: k < capacity ==> (r.Has(k) <==> Has(k) || b.Has(k))
    {
      OrAll16(this, b);
      BitArray16(data | b.data)
    }

    /** operator &. */
    function And(b: BitArray16): (r: BitArray16)
      ensures forall k: uint :: k < capacity ==> (r.Has(k) <==> Has(k) && b.Has(k))
    {
      AndAll16(this, b);
      BitArray16(data & b.data)
    }

    /** operator ==: the same value, which is the same bits. */
    function Eq(b: BitArray16): (r: bool)
      ensures r <==> this == b
      ensures r <==> forall k: uint :: k < capacity ==> (Has(k) <==> b.Has(k))
    {
      SameBits16(this, b);
      data == b.data
    }

    /** operator !=. */
    function Neq(b: BitArray16): (r: bool)
      ensures r <==> !Eq(b)
    {
      data != b.data
    }

    /** Equals(object): true only for a boxed BitArray16 with the same data. */
    function Equals(obj: Object): (r: bool)
      ensures r <==> obj == Boxed(Bits16(this))
    {
      obj.Boxed? && obj.value.Bits16? && obj.value.b16.data == data
    }

    /** humanizedData: the zero-padded numeral in dot-separated groups of 8. */
    function HumanizedData(): (r: string)
      ensures GroupedBy8(r, FixedBinary(data as nat, 16))
    {
      Pow2Widths();
      GroupedNumeral(data as nat, 16)
    }

    /** The constructor from an index list, walked from its last element
        to its first; indices of capacity or more are skipped and a null
        list leaves every bit clear. */
    static method FromIndexList(bitIndexTrue: Option<seq<uint>>) returns (r: BitArray16)
      ensures r == IndexListValue16(bitIndexTrue)
    {
      var data: bv16 := 0;
      if bitIndexTrue.None? {
        return BitArray16(data);
      }
      var s := bitIndexTrue.value;
      var index := |s| - 1;
      while index >= 0
        invariant -1 <= index < |s|
        invariant data == Mask16(s[index + 1..])
      {
        var bitIndex := s[index];
        if bitIndex >= 16 {
          MaskSkip16(data, s, index);
          index := index - 1;
          continue;
        }
        MaskOr16(data, s, index, bitIndex);
        data := data | ((1 as bv16) << bitIndex);
        index := index - 1;
      }
      assert s[0..] == s;
      r := BitArray16(data);
    }

  }

  /** What the index-list constructor builds: exactly the listed indices
      below 16 are set, and nothing for a null list. */
  function IndexListValue16(list: Option<seq<uint>>): (r: BitArray16)
    ensures forall k: uint :: k < 16 ==> (r.Has(k) <==> list.Some? && k in list.value)
  {
    if list.None? then
      MaskAll16([]);
      BitArray16(0)
    else
      MaskAll16(list.value);
      BitArray16(Mask16(list.value))
  }

  /** The bit the constructor ORs in for index i: none when i is out of range. */
  function IndexBit16(i: uint): bv16
  {
    if i >= 16 then 0 else (1 as bv16) << i
  }

  /** The bits a list of indices sets, folded from its end. */
  function Mask16(s: seq<uint>): bv16
  {
    if s == [] then 0 else Mask16(s[1..]) | IndexBit16(s[0])
  }

  /** Indices of capacity or more contribute nothing. */
  lemma MaskSkip16(data: bv16, s: seq<uint>, i: int)
    requires 0 <= i < |s| && s[i] >= 16
    requires data == Mask16(s[i + 1..])
    ensures data == Mask16(s[i..])
  {
    assert s[i..][1..] == s[i + 1..];
  }

  /** ORing in the bit of s[i] (here b) extends the mask by one element. */
  lemma MaskOr16(data: bv16, s: seq<uint>, i: int, b: uint)
    requires 0 <= i < |s| && b == s[i] && b < 16
    requires data == Mask16(s[i + 1..])
    ensures data | ((1 as bv16) << b) == Mask16(s[i..])
  {
    assert s[i..][1..] == s[i + 1..];
  }

  lemma OrBits16(a: BitArray16, b: BitArray16, k: uint)
    requires k < 16
    ensures BitArray16(a.data | b.data).Has(k) <==> a.Has(k) || b.Has(k)
  {
  }

  lemma NotBits16(a: BitArray16, k: uint)
    requires k < 16
    ensures BitArray16(!a.data).Has(k) <==> !a.Has(k)
  {
  }

  lemma AndBits16(a: BitArray16, b: BitArray16, k: uint)
    requires k < 16
    ensures BitArray16(a.data & b.data).Has(k) <==> a.Has(k) && b.Has(k)
  {
  }

  lemma NotAll16(a: BitArray16)
    ensures forall k: uint :: k < 16 ==> (BitArray16(!a.data).Has(k) <==> !a.Has(k))
  {
    forall k: uint | k < 16
      ensures BitArray16(!a.data).Has(k) <==> !a.Has(k)
    {
      NotBits16(a, k);
    }
  }

  lemma OrAll16(a: BitArray16, b: BitArray16)
    ensures forall k: uint :: k < 16 ==> (BitArray16(a.data | b.data).Has(k) <==> a.Has(k) || b.Has(k))
  {
    forall k: uint | k < 16
      ensures BitArray16(a.data | b.data).Has(k) <==> a.Has(k) || b.Has(k)
    {
      OrBits16(a, b, k);
    }
  }

  lemma AndAll16(a: BitArray16, b: BitArray16)
    ensures forall k: uint :: k < 16 ==> (BitArray16(a.data & b.data).Has(k) <==> a.Has(k) && b.Has(k))
  {
    forall k: uint | k < 16
      ensures BitArray16(a.data & b.data).Has(k) <==> a.Has(k) && b.Has(k)
    {
      AndBits16(a, b, k);
    }
  }

  lemma XorBits16(a: BitArray16, b: BitArray16, k: uint)
    requires k < 16
    ensures BitArray16(a.data ^ b.data).Has(k) <==> a.Has(k) != b.Has(k)
  {
  }

  lemma SingleBit16(i: uint, k: uint)
    requires k < 16
    ensures BitArray16(IndexBit16(i)).Has(k) <==> i == k
  {
  }

  /** One step of the fold: s[0] adds its own bit to the rest's mask. */
  lemma MaskStepBits16(s: seq<uint>, k: uint)
    requires s != [] && k < 16
    ensures BitArray16(Mask16(s)).Has(k) <==> BitArray16(Mask16(s[1..])).Has(k) || s[0] == k
  {
    OrBits16(BitArray16(Mask16(s[1..])), BitArray16(IndexBit16(s[0])), k);
    SingleBit16(s[0], k);
  }

  /** Bit k of the folded mask is set exactly when k is in the list. */
  lemma {:induction false} MaskBits16(s: seq<uint>, k: uint)
    requires k < 16
    ensures BitArray16(Mask16(s)).Has(k) <==> k in s
  {
    if s != [] {
      MaskBits16(s[1..], k);
      MaskStepBits16(s, k);
      assert s == [s[0]] + s[1..];
    }
  }

  lemma MaskAll16(s: seq<uint>)
    ensures forall k: uint :: k < 16 ==> (BitArray16(Mask16(s)).Has(k) <==> k in s)
  {
    forall k: uint | k < 16
      ensures BitArray16(Mask16(s)).Has(k) <==> k in s
    {
      MaskBits16(s, k);
    }
  }

  lemma {:induction false} ClearFrom16(a: BitArray16, m: uint)
    requires m <= 16
    requires forall j: uint :: m <= j < 16 ==> !a.Has(j)
    ensures a.data >> m == 0
    decreases 16 - m
  {
    if m < 16 {
      ClearFrom16(a, m + 1);
      assert !a.Has(m);
      assert (a.data >> m) >> 1 == a.data >> (m + 1);
    }
  }

  /** A value is zero exactly when none of its bits is set. */
  lemma AllClear16(a: BitArray16)
    ensures a.data == 0 <==> forall k: uint :: k < 16 ==> !a.Has(k)
  {
    if forall k: uint :: k < 16 ==> !a.Has(k) {
      ClearFrom16(a, 0);
    }
  }

  /** Two values are equal exactly when they agree on every bit. */
  lemma SameBits16(a: BitArray16, b: BitArray16)
    ensures a == b <==> forall k: uint :: k < 16 ==> (a.Has(k) <==> b.Has(k))
  {
    var x := BitArray16(a.data ^ b.data);
    forall k: uint | k < 16
      ensures x.Has(k) <==> a.Has(k) != b.Has(k)
    {
      XorBits16(a, b, k);
    }
    AllClear16(x);
  }

  /** ~ is an involution and turns allFalse into allTrue. */
  lemma NotNot16(a: BitArray16)
    ensures a.Not().Not() == a
    ensures a.Not().AllTrue() == a.AllFalse()
  {
  }

  /** | and & are commutative, and a & ~a has no bit set. */
  lemma OrAndLaws16(a: BitArray16, b: BitArray16)
    ensures a.Or(b) == b.Or(a) && a.And(b) == b.And(a)
    ensures a.And(a.Not()).AllFalse()
  {
  }

  /** ==, != and Equals agree. */
  lemma EqualityAgrees16(a: BitArray16, b: BitArray16)
    ensures a.Eq(b) == a.Equals(Boxed(Bits16(b)))
    ensures a.Neq(b) == !a.Equals(Boxed(Bits16(b)))
  {
  }

  // ----- BitArray32: 32 bits in one `uint` -----

  /** BitArray32; the constructor BitArray32(initValue) stores initValue as it is. */
  datatype BitArray32 = BitArray32(data: bv32)
  {
    const capacity: uint := 32

    /** Whether bit k is set, counted from the least significant bit. */
    predicate Has(k: uint)
      requires k < capacity
    {
      (data >> k) & 1 == 1
    }

    /** allFalse: no bit is set. */
    function AllFalse(): (r: bool)
      ensures r <==> forall k: uint :: k < capacity ==> !Has(k)
    {
      AllClear32(this);
      data == 0
    }

    /** allTrue: every bit is set. */
    function AllTrue(): (r: bool)
      ensures r <==> forall k: uint :: k < capacity ==> Has(k)
    {
      AllClear32(Not());
      data == 0xFFFF_FFFF
    }

    /** operator ~. */
    function Not(): (r: BitArray32)
      ensures forall k: uint :: k < capacity ==> (r.Has(k) <==> !Has(k))
    {
      NotAll32(this);
      BitArray32(!data)
    }

    /** operator |. */
    function Or(b: BitArray32): (r: BitArray32)
      ensures forall k: uint :: k < capacity ==> (r.Has(k) <==> Has(k) || b.Has(k))
    {
      OrAll32(this, b);
      BitArray32(data | b.data)
    }

    /** operator &. */
    function And(b: BitArray32): (r: BitArray32)
      ensures forall k: uint :: k < capacity ==> (r.Has(k) <==> Has(k) && b.Has(k))
    {
      AndAll32(this, b);
      BitArray32(data & b.data)
    }

    /** operator ==: the same value, which is the same bits. */
    function Eq(b: BitArray32): (r: bool)
      ensures r <==> this == b
      ensures r <==> forall k: uint :: k < capacity ==> (Has(k) <==> b.Has(k))
    {
      SameBits32(this, b);
      data == b.data
    }

    /** operator !=. */
    function Neq(b: BitArray32): (r: bool)
      ensures r <==> !Eq(b)
    {
      data != b.data
    }

    /** Equals(object): true only for a boxed BitArray32 with the same data. */
    function Equals(obj: Object): (r: bool)
      ensures r <==> obj == Boxed(Bits32(this))
    {
      obj.Boxed? && obj.value.Bits32? && obj.value.b32.data == data
    }

    /** humanizedData: the zero-padded numeral in dot-separated groups of 8. */
    function HumanizedData(): (r: string)
      ensures GroupedBy8(r, FixedBinary(data as nat, 32))
    {
      Pow2Widths();
      GroupedNumeral(data as nat, 32)
    }

    /** The constructor from an index list, walked from its last element
        to its first; indices of capacity or more are skipped and a null
        list leaves every bit clear. */
    static method FromIndexList(bitIndexTrue: Option<seq<uint>>) returns (r: BitArray32)
      ensures r == IndexListValue32(bitIndexTrue)
    {
      var data: bv32 := 0;
      if bitIndexTrue.None? {
        return BitArray32(data);
      }
      var s := bitIndexTrue.value;
      var index := |s| - 1;
      while index >= 0
        invariant -1 <= index < |s|
        invariant data == Mask32(s[index + 1..])
      {
        var bitIndex := s[index];
        if bitIndex >= 32 {
          MaskSkip32(data, s, index);
          index := index - 1;
          continue;
        }
        MaskOr32(data, s, index, bitIndex);
        data := data | ((1 as bv32) << bitIndex);
        index := index - 1;
      }
      assert s[0..] == s;
      r := BitArray32(data);
    }

  }

  /** What the index-list constructor builds: exactly the listed indices
      below 32 are set, and nothing for a null list. */
  function IndexListValue32(list: Option<seq<uint>>): (r: BitArray32)
    ensures forall k: uint :: k < 32 ==> (r.Has(k) <==> list.Some? && k in list.value)
  {
    if list.None? then
      MaskAll32([]);
      BitArray32(0)
    else
      MaskAll32(list.value);
      BitArray32(Mask32(list.value))
  }

  /** The bit the constructor ORs in for index i: none when i is out of range. */
  function IndexBit32(i: uint): bv32
  {
    if i >= 32 then 0 else (1 as bv32) << i
  }

  /** The bits a list of indices sets, folded from its end. */
  function Mask32(s: seq<uint>): bv32
  {
    if s == [] then 0 else Mask32(s[1..]) | IndexBit32(s[0])
  }

  /** Indices of capacity or more contribute nothing. */
  lemma MaskSkip32(data: bv32, s: seq<uint>, i: int)
    requires 0 <= i < |s| && s[i] >= 32
    requires data == Mask32(s[i + 1..])
    ensures data == Mask32(s[i..])
  {
    assert s[i..][1..] == s[i + 1..];
  }

  /** ORing in the bit of s[i] (here b) extends the mask by one element. */
  lemma MaskOr32(data: bv32, s: seq<uint>, i: int, b: uint)
    requires 0 <= i < |s| && b == s[i] && b < 32
    requires data == Mask32(s[i + 1..])
    ensures data | ((1 as bv32) << b) == Mask32(s[i..])
  {
    assert s[i..][1..] == s[i + 1..];
  }

  lemma OrBits32(a: BitArray32, b: BitArray32, k: uint)
    requires k < 32
    ensures BitArray32(a.data | b.data).Has(k) <==> a.Has(k) || b.Has(k)
  {
  }

  lemma NotBits32(a: BitArray32, k: uint)
    requires k < 32
    ensures BitArray32(!a.data).Has(k) <==> !a.Has(k)
  {
  }

  lemma AndBits32(a: BitArray32, b: BitArray32, k: uint)
    requires k < 32
    ensures BitArray32(a.data & b.data).Has(k) <==> a.Has(k) && b.Has(k)
  {
  }

  lemma NotAll32(a: BitArray32)
    ensures forall k: uint :: k < 32 ==> (BitArray32(!a.data).Has(k) <==> !a.Has(k))
  {
    forall k: uint | k < 32
      ensures BitArray32(!a.data).Has(k) <==> !a.Has(k)
    {
      NotBits32(a, k);
    }
  }

  lemma OrAll32(a: BitArray32, b: BitArray32)
    ensures forall k: uint :: k < 32 ==> (BitArray32(a.data | b.data).Has(k) <==> a.Has(k) || b.Has(k))
  {
    forall k: uint | k < 32
      ensures BitArray32(a.data | b.data).Has(k) <==> a.Has(k) || b.Has(k)
    {
      OrBits32(a, b, k);
    }
  }

  lemma AndAll32(a: BitArray32, b: BitArray32)
    ensures forall k: uint :: k < 32 ==> (BitArray32(a.data & b.data).Has(k) <==> a.Has(k) && b.Has(k))
  {
    forall k: uint | k < 32
      ensures BitArray32(a.data & b.data).Has(k) <==> a.Has(k) && b.Has(k)
    {
      AndBits32(a, b, k);
    }
  }

  lemma XorBits32(a: BitArray32, b: BitArray32, k: uint)
    requires k < 32
    ensures BitArray32(a.data ^ b.data).Has(k) <==> a.Has(k) != b.Has(k)
  {
  }

  lemma SingleBit32(i: uint, k: uint)
    requires k < 32
    ensures BitArray32(IndexBit32(i)).Has(k) <==> i == k
  {
  }

  /** One step of the fold: s[0] adds its own bit to the rest's mask. */
  lemma MaskStepBits32(s: seq<uint>, k: uint)
    requires s != [] && k < 32
    ensures BitArray32(Mask32(s)).Has(k) <==> BitArray32(Mask32(s[1..])).Has(k) || s[0] == k
  {
    OrBits32(BitArray32(Mask32(s[1..])), BitArray32(IndexBit32(s[0])), k);
    SingleBit32(s[0], k);
  }

  /** Bit k of the folded mask is set exactly when k is in the list. */
  lemma {:induction false} MaskBits32(s: seq<uint>, k: uint)
    requires k < 32
    ensures BitArray32(Mask32(s)).Has(k) <==> k in s
  {
    if s != [] {
      MaskBits32(s[1..], k);
      MaskStepBits32(s, k);
      assert s == [s[0]] + s[1..];
    }
  }

  lemma MaskAll32(s: seq<uint>)
    ensures forall k: uint :: k < 32 ==> (BitArray32(Mask32(s)).Has(k) <==> k in s)
  {
    forall k: uint | k < 32
      ensures BitArray32(Mask32(s)).Has(k) <==> k in s
    {
      MaskBits32(s, k);
    }
  }

  lemma {:induction false} ClearFrom32(a: BitArray32, m: uint)
    requires m <= 32
    requires forall j: uint :: m <= j < 32 ==> !a.Has(j)
    ensures a.data >> m == 0
    decreases 32 - m
  {
    if m < 32 {
      ClearFrom32(a, m + 1);
      assert !a.Has(m);
      assert (a.data >> m) >> 1 == a.data >> (m + 1);
    }
  }

  /** A value is zero exactly when none of its bits is set. */
  lemma AllClear32(a: BitArray32)
    ensures a.data == 0 <==> forall k: uint :: k < 32 ==> !a.Has(k)
  {
    if forall k: uint :: k < 32 ==> !a.Has(k) {
      ClearFrom32(a, 0);
    }
  }

  /** Two values are equal exactly when they agree on every bit. */
  lemma SameBits32(a: BitArray32, b: BitArray32)
    ensures a == b <==> forall k: uint :: k < 32 ==> (a.Has(k) <==> b.Has(k))
  {
    var x := BitArray32(a.data ^ b.data);
    forall k: uint | k < 32
      ensures x.Has(k) <==> a.Has(k) != b.Has(k)
    {
      XorBits32(a, b, k);
    }
    AllClear32(x);
  }

  /** ~ is an involution and turns allFalse into allTrue. */
  lemma NotNot32(a: BitArray32)
    ensures a.Not().Not() == a
    ensures a.Not().AllTrue() == a.AllFalse()
  {
  }

  /** | and & are commutative, and a & ~a has no bit set. */
  lemma OrAndLaws32(a: BitArray32, b: BitArray32)
    ensures a.Or(b) == b.Or(a) && a.And(b) == b.And(a)
    ensures a.And(a.Not()).AllFalse()
  {
  }

  /** ==, != and Equals agree. */
  lemma EqualityAgrees32(a: BitArray32, b: BitArray32)
    ensures a.Eq(b) == a.Equals(Boxed(Bits32(b)))
    ensures a.Neq(b) == !a.Equals(Boxed(Bits32(b)))
  {
  }

  // ----- BitArray64: 64 bits in one `ulong` -----

  /** BitArray64; the constructor BitArray64(initValue) stores initValue as it is. */
  datatype BitArray64 = BitArray64(data: bv64)
  {
    const capacity: uint := 64

    /** Whether bit k is set, counted from the least significant bit. */
    predicate Has(k: uint)
      requires k < capacity
    {
      (data >> k) & 1 == 1
    }

    /** allFalse: no bit is set. */
    function AllFalse(): (r: bool)
      ensures r <==> forall k: uint :: k < capacity ==> !Has(k)
    {
      AllClear64(this);
      data == 0
    }

    /** allTrue: every bit is set. */
    function AllTrue(): (r: bool)
      ensures r <==> forall k: uint :: k < capacity ==> Has(k)
    {
      AllClear64(Not());
      data == 0xFFFF_FFFF_FFFF_FFFF
    }

    /** operator ~. */
    function Not(): (r: BitArray64)
      ensures forall k: uint :: k < capacity ==> (r.Has(k) <==> !Has(k))
    {
      NotAll64(this);
      BitArray64(!data)
    }

    /** operator |. */
    function Or(b: BitArray64): (r: BitArray64)
      ensures forall k: uint :: k < capacity ==> (r.Has(k) <==> Has(k) || b.Has(k))
    {
      OrAll64(this, b);
      BitArray64(data | b.data)
    }

    /** operator &. */
    function And(b: BitArray64): (r: BitArray64)
      ensures forall k: uint :: k < capacity ==> (r.Has(k) <==> Has(k) && b.Has(k))
    {
      AndAll64(this, b);
      BitArray64(data & b.data)
    }

    /** operator ==: the same value, which is the same bits. */
    function Eq(b: BitArray64): (r: bool)
      ensures r <==> this == b
      ensures r <==> forall k: uint :: k < capacity ==> (Has(k) <==> b.Has(k))
    {
      SameBits64(this, b);
      data == b.data
    }

    /** operator !=. */
    function Neq(b: BitArray64): (r: bool)
      ensures r <==> !Eq(b)
    {
      data != b.data
    }

    /** Equals(object): true only for a boxed BitArray64 with the same data. */
    function Equals(obj: Object): (r: bool)
      ensures r <==> obj == Boxed(Bits64(this))
    {
      obj.Boxed? && obj.value.Bits64? && obj.value.b64.data == data
    }

    /** humanizedData: the zero-padded numeral in dot-separated groups of 8. */
    function HumanizedData(): (r: string)
      ensures GroupedBy8(r, FixedBinary(data as nat, 64))
    {
      Pow2Widths();
      GroupedNumeral(data as nat, 64)
    }

    /** The constructor from an index list, walked from its last element
        to its first; indices of capacity or more are skipped and a null
        list leaves every bit clear. */
    static method FromIndexList(bitIndexTrue: Option<seq<uint>>) returns (r: BitArray64)
      ensures r == IndexListValue64(bitIndexTrue)
    {
      var data: bv64 := 0;
      if bitIndexTrue.None? {
        return BitArray64(data);
      }
      var s := bitIndexTrue.value;
      var index := |s| - 1;
      while index >= 0
        invariant -1 <= index < |s|
        invariant data == Mask64(s[index + 1..])
      {
        var bitIndex := s[index];
        if bitIndex >= 64 {
          MaskSkip64(data, s, index);
          index := index - 1;
          continue;
        }
        MaskOr64(data, s, index, bitIndex);
        data := data | ((1 as bv64) << bitIndex);
        index := index - 1;
      }
      assert s[0..] == s;
      r := BitArray64(data);
    }

  }

  /** What the index-list constructor builds: exactly the listed indices
      below 64 are set, and nothing for a null list. */
  function IndexListValue64(list: Option<seq<uint>>): (r: BitArray64)
    ensures forall k: uint :: k < 64 ==> (r.Has(k) <==> list.Some? && k in list.value)
  {
    if list.None? then
      MaskAll64([]);
      BitArray64(0)
    else
      MaskAll64(list.value);
      BitArray64(Mask64(list.value))
  }

  /** The bit the constructor ORs in for index i: none when i is out of range. */
  function IndexBit64(i: uint): bv64
  {
    if i >= 64 then 0 else (1 as bv64) << i
  }

  /** The bits a list of indices sets, folded from its end. */
  function Mask64(s: seq<uint>): bv64
  {
    if s == [] then 0 else Mask64(s[1..]) | IndexBit64(s[0])
  }

  /** Indices of capacity or more contribute nothing. */
  lemma MaskSkip64(data: bv64, s: seq<uint>, i: int)
    requires 0 <= i < |s| && s[i] >= 64
    requires data == Mask64(s[i + 1..])
    ensures data == Mask64(s[i..])
  {
    assert s[i..][1..] == s[i + 1..];
  }

  /** ORing in the bit of s[i] (here b) extends the mask by one element. */
  lemma MaskOr64(data: bv64, s: seq<uint>, i: int, b: uint)
    requires 0 <= i < |s| && b == s[i] && b < 64
    requires data == Mask64(s[i + 1..])
    ensures data | ((1 as bv64) << b) == Mask64(s[i..])
  {
    assert s[i..][1..] == s[i + 1..];
  }

  lemma OrBits64(a: BitArray64, b: BitArray64, k: uint)
    requires k < 64
    ensures BitArray64(a.data | b.data).Has(k) <==> a.Has(k) || b.Has(k)
  {
  }

  lemma NotBits64(a: BitArray64, k: uint)
    requires k < 64
    ensures BitArray64(!a.data).Has(k) <==> !a.Has(k)
  {
  }

  lemma AndBits64(a: BitArray64, b: BitArray64, k: uint)
    requires k < 64
    ensures BitArray64(a.data & b.data).Has(k) <==> a.Has(k) && b.Has(k)
  {
  }

  lemma NotAll64(a: BitArray64)
    ensures forall k: uint :: k < 64 ==> (BitArray64(!a.data).Has(k) <==> !a.Has(k))
  {
    forall k: uint | k < 64
      ensures BitArray64(!a.data).Has(k) <==> !a.Has(k)
    {
      NotBits64(a, k);
    }
  }

  lemma OrAll64(a: BitArray64, b: BitArray64)
    ensures forall k: uint :: k < 64 ==> (BitArray64(a.data | b.data).Has(k) <==> a.Has(k) || b.Has(k))
  {
    forall k: uint | k < 64
      ensures BitArray64(a.data | b.data).Has(k) <==> a.Has(k) || b.Has(k)
    {
      OrBits64(a, b, k);
    }
  }

  lemma AndAll64(a: BitArray64, b: BitArray64)
    ensures forall k: uint :: k < 64 ==> (BitArray64(a.data & b.data).Has(k) <==> a.Has(k) && b.Has(k))
  {
    forall k: uint | k < 64
      ensures BitArray64(a.data & b.data).Has(k) <==> a.Has(k) && b.Has(k)
    {
      AndBits64(a, b, k);
    }
  }

  lemma XorBits64(a: BitArray64, b: BitArray64, k: uint)
    requires k < 64
    ensures BitArray64(a.data ^ b.data).Has(k) <==> a.Has(k) != b.Has(k)
  {
  }

  lemma SingleBit64(i: uint, k: uint)
    requires k < 64
    ensures BitArray64(IndexBit64(i)).Has(k) <==> i == k
  {
  }

  /** One step of the fold: s[0] adds its own bit to the rest's mask. */
  lemma MaskStepBits64(s: seq<uint>, k: uint)
    requires s != [] && k < 64
    ensures BitArray64(Mask64(s)).Has(k) <==> BitArray64(Mask64(s[1..])).Has(k) || s[0] == k
  {
    OrBits64(BitArray64(Mask64(s[1..])), BitArray64(IndexBit64(s[0])), k);
    SingleBit64(s[0], k);
  }

  /** Bit k of the folded mask is set exactly when k is in the list. */
  lemma {:induction false} MaskBits64(s: seq<uint>, k: uint)
    requires k < 64
    ensures BitArray64(Mask64(s)).Has(k) <==> k in s
  {
    if s != [] {
      MaskBits64(s[1..], k);
      MaskStepBits64(s, k);
      assert s == [s[0]] + s[1..];
    }
  }

  lemma MaskAll64(s: seq<uint>)
    ensures forall k: uint :: k < 64 ==> (BitArray64(Mask64(s)).Has(k) <==> k in s)
  {
    forall k: uint | k < 64
      ensures BitArray64(Mask64(s)).Has(k) <==> k in s
    {
      MaskBits64(s, k);
    }
  }

  lemma {:induction false} ClearFrom64(a: BitArray64, m: uint)
    requires m <= 64
    requires forall j: uint :: m <= j < 64 ==> !a.Has(j)
    ensures a.data >> m == 0
    decreases 64 - m
  {
    if m < 64 {
      ClearFrom64(a, m + 1);
      assert !a.Has(m);
      assert (a.data >> m) >> 1 == a.data >> (m + 1);
    }
  }

  /** A value is zero exactly when none of its bits is set. */
  lemma AllClear64(a: BitArray64)
    ensures a.data == 0 <==> forall k: uint :: k < 64 ==> !a.Has(k)
  {
    if forall k: uint :: k < 64 ==> !a.Has(k) {
      ClearFrom64(a, 0);
    }
  }

  /** Two values are equal exactly when they agree on every bit. */
  lemma SameBits64(a: BitArray64, b: BitArray64)
    ensures a == b <==> forall k: uint :: k < 64 ==> (a.Has(k) <==> b.Has(k))
  {
    var x := BitArray64(a.data ^ b.data);
    forall k: uint | k < 64
      ensures x.Has(k) <==> a.Has(k) != b.Has(k)
    {
      XorBits64(a, b, k);
    }
    AllClear64(x);
  }

  /** ~ is an involution and turns allFalse into allTrue. */
  lemma NotNot64(a: BitArray64)
    ensures a.Not().Not() == a
    ensures a.Not().AllTrue() == a.AllFalse()
  {
  }

  /** | and & are commutative, and a & ~a has no bit set. */
  lemma OrAndLaws64(a: BitArray64, b: BitArray64)
    ensures a.Or(b) == b.Or(a) && a.And(b) == b.And(a)
    ensures a.And(a.Not()).AllFalse()
  {
  }

  /** ==, != and Equals agree. */
  lemma EqualityAgrees64(a: BitArray64, b: BitArray64)
    ensures a.Eq(b) == a.Equals(Boxed(Bits64(b)))
    ensures a.Neq(b) == !a.Equals(Boxed(Bits64(b)))
  {
  }
}
