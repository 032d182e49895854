// Packed words: special-level coordinates, regions and indices, the version
// word of suppress_alert, and the 24-bit terminal colours.

module PackedWords {
  import opened Bits

  const INT_BITS: nat := 32 // the macros below compute in C's `int`

  // ---- coordinates: x in bits 0-7, y in bits 16-23, or flags and bit 24 ----

  const RANDOM_BIT: nat := 24 // SP_COORD_IS_RANDOM

  function CoordX(l: int): int { Low(l, 8) }

  function CoordY(l: int): int { Low(Shr(l, 16), 8) }

  function CoordPack(x: int, y: int): int { Low(x, 8) + Shl(Low(y, 8), 16) }

  function CoordPackRandom(flags: int): int { SetBit(flags, RANDOM_BIT) }

  datatype UnpackedCoord = Fixed(x: int, y: int, getlocFlags: int) | Random(getlocFlags: int)

  /** How the level loader reads a packed coordinate. */
  function UnpackCoord(loc: int, defHumidity: int): UnpackedCoord {
    if HasBit(loc, RANDOM_BIT) then
      var flags := ClearBit(loc, RANDOM_BIT);
      Random(if flags == 0 then defHumidity else flags)
    else
      Fixed(CoordX(loc), CoordY(loc), defHumidity)
  }

  lemma CoordIsSum(x: int, y: int)
    ensures CoordPack(x, y) == x % 0x100 + y % 0x100 * 0x1_0000
  {
    LowBits(x);
    LowBits(y);
    Shifts(Low(y, 8));
  }

  lemma CoordParts(l: int)
    ensures CoordX(l) == l % 0x100 && CoordY(l) == l / 0x1_0000 % 0x100
  {
    LowBits(l);
    Shifts(l);
    LowBits(Shr(l, 16));
  }

  lemma BelowRandomBit(l: int)
    requires 0 <= l < 0x100_0000
    ensures !HasBit(l, RANDOM_BIT)
  {
    Pow2Constants();
    BitAboveValue(l, RANDOM_BIT);
  }

  /** A fixed coordinate is read back component by component modulo 256 and is
      never mistaken for a random one, whatever the components were. */
  lemma CoordRoundTrip(x: int, y: int, defHumidity: int)
    ensures UnpackCoord(CoordPack(x, y), defHumidity) == Fixed(x % 0x100, y % 0x100, defHumidity)
  {
    hide And, AndNot, Or;
    var l := CoordPack(x, y);
    CoordIsSum(x, y);
    CoordParts(l);
    FourBytes(x % 0x100, 0, y % 0x100, 0, 0);
    BelowRandomBit(l);
  }

  /** A random coordinate carries its humidity flags, except that bit 24 is lost
      and that a word with no other bit asks for the default. So the flags come back
      unchanged exactly if they lack bit 24 or, when they are no flags but perhaps
      that bit, if they are the default. */
  lemma RandomCoordRoundTrip(flags: int, defHumidity: int)
    ensures UnpackCoord(CoordPackRandom(flags), defHumidity)
         == Random(if ClearBit(flags, RANDOM_BIT) == 0 then defHumidity else ClearBit(flags, RANDOM_BIT))
    ensures ClearBit(flags, RANDOM_BIT) == flags - (if HasBit(flags, RANDOM_BIT) then 0x100_0000 else 0)
    ensures HasBit(flags, RANDOM_BIT) <==> flags / 0x100_0000 % 2 == 1
    ensures UnpackCoord(CoordPackRandom(flags), defHumidity) == Random(flags) <==>
              if ClearBit(flags, RANDOM_BIT) == 0 then defHumidity == flags else !HasBit(flags, RANDOM_BIT)
  {
    FlagBits(flags, Pow2(RANDOM_BIT));
    OneBit(flags, RANDOM_BIT);
    Pow2Constants();
    hide And, Or, AndNot, Pow2;
  }

  /** No flags at all are packed by the level compiler, and read as the default. */
  lemma NoFlagsMeanDefault(defHumidity: int)
    ensures UnpackCoord(CoordPackRandom(0), defHumidity) == Random(defHumidity)
  {
    hide And, Or, AndNot, Pow2;
    RandomCoordRoundTrip(0, defHumidity);
    FlagBits(0, Pow2(RANDOM_BIT));
    OneBit(0, RANDOM_BIT);
    Pow2Constants();
  }

  lemma FixedAndRandomNeverCollide(x: int, y: int, flags: int)
    ensures CoordPack(x, y) != CoordPackRandom(flags)
  {
    CoordRoundTrip(x, y, 0);
    RandomCoordRoundTrip(flags, 0);
  }

  // ---- regions: four bytes in one int, the last one reaching the sign bit ----

  function RegionX1(l: int): int { Low(l, 8) }

  function RegionY1(l: int): int { Low(Shr(l, 8), 8) }

  function RegionX2(l: int): int { Low(Shr(l, 16), 8) }

  function RegionY2(l: int): int { Low(Shr(l, 24), 8) }

  function RegionPack(x1: int, y1: int, x2: int, y2: int): int {
    Signed(Low(x1, 8) + Shl(Low(y1, 8), 8) + Shl(Low(x2, 8), 16) + Shl(Low(y2, 8), 24), INT_BITS)
  }

  lemma SignedInt(x: int)
    requires 0 <= x < 0x1_0000_0000
    ensures Signed(x, INT_BITS) == if x < 0x8000_0000 then x else x - 0x1_0000_0000
  {
    Pow2Constants();
    SmallMod(x, 0x1_0000_0000);
  }

  /** The packed region is the sum of its bytes, less 2^32 if the top bit is set. */
  lemma RegionIsSum(x1: int, y1: int, x2: int, y2: int) returns (sign: int)
    ensures RegionPack(x1, y1, x2, y2)
         == x1 % 0x100 + y1 % 0x100 * 0x100 + x2 % 0x100 * 0x1_0000 + y2 % 0x100 * 0x100_0000
          + sign * 0x1_0000_0000
    ensures RegionPack(x1, y1, x2, y2) < 0 <==> y2 % 0x100 >= 0x80
  {
    hide And, Signed;
    LowBits(x1);
    LowBits(y1);
    LowBits(x2);
    LowBits(y2);
    var a, b, c, d := Low(x1, 8), Low(y1, 8), Low(x2, 8), Low(y2, 8);
    Shifts(b);
    Shifts(c);
    Shifts(d);
    SignedInt(a + b * 0x100 + c * 0x1_0000 + d * 0x100_0000);
    sign := if d < 0x80 then 0 else -1;
  }

  lemma RegionParts(l: int)
    ensures RegionX1(l) == l % 0x100 && RegionY1(l) == l / 0x100 % 0x100
    ensures RegionX2(l) == l / 0x1_0000 % 0x100 && RegionY2(l) == l / 0x100_0000 % 0x100
  {
    Shifts(l);
    LowBits(l);
    LowBits(Shr(l, 8));
    LowBits(Shr(l, 16));
    LowBits(Shr(l, 24));
  }

  /** All four components come back modulo 256, although a `y2` of 128 or more
      makes the packed int negative. */
  lemma RegionRoundTrip(x1: int, y1: int, x2: int, y2: int)
    ensures var l := RegionPack(x1, y1, x2, y2);
            && RegionX1(l) == x1 % 0x100
            && RegionY1(l) == y1 % 0x100
            && RegionX2(l) == x2 % 0x100
            && RegionY2(l) == y2 % 0x100
            && (l < 0 <==> y2 % 0x100 >= 0x80)
  {
    hide *;
    var sign := RegionIsSum(x1, y1, x2, y2);
    RegionParts(RegionPack(x1, y1, x2, y2));
    FourBytes(x1 % 0x100, y1 % 0x100, x2 % 0x100, y2 % 0x100, sign);
  }

  lemma FourBytes(a: int, b: int, c: int, d: int, sign: int)
    requires 0 <= a < 0x100 && 0 <= b < 0x100 && 0 <= c < 0x100 && 0 <= d < 0x100
    ensures var l := a + b * 0x100 + c * 0x1_0000 + d * 0x100_0000 + sign * 0x1_0000_0000;
            && l % 0x100 == a
            && l / 0x100 % 0x100 == b
            && l / 0x1_0000 % 0x100 == c
            && l / 0x100_0000 % 0x100 == d
  {
    var l := a + b * 0x100 + c * 0x1_0000 + d * 0x100_0000 + sign * 0x1_0000_0000;
    var l3 := d + sign * 0x100;
    var l2 := c + l3 * 0x100;
    var l1 := b + l2 * 0x100;
    DivModUnique(l, 0x100, l1, a);
    DivModUnique(l1, 0x100, l2, b);
    DivModUnique(l2, 0x100, l3, c);
    DivModUnique(l3, 0x100, sign, d);
    DivModUnique(l, 0x1_0000, l2, a + b * 0x100);
    DivModUnique(l, 0x100_0000, l3, a + b * 0x100 + c * 0x1_0000);
  }

  // ---- monsters, objects, map characters: a class byte and an index + 10 ----

  function BiasedClass(l: int): int { Low(l, 8) }

  function BiasedIndex(l: int): int { Low(Shr(l, 8), 16) - 10 }

  function BiasedPack(index: int, cls: int): int {
    LowBits(cls);
    Signed(Or(Shl(10 + index, 8), Low(cls, 8)), INT_BITS)
  }

  lemma BiasedIsSum(index: int, cls: int) returns (sign: int)
    ensures BiasedPack(index, cls) == (10 + index) * 0x100 + cls % 0x100 + sign * 0x1_0000_0000
  {
    LowBits(cls);
    Shifts(10 + index);
    Pow2Constants();
    OrFields(10 + index, cls % 0x100, 8);
    sign := SignedDiffersAbove((10 + index) * 0x100 + cls % 0x100, INT_BITS);
  }

  lemma BiasedParts(l: int, biased: int, cls: int)
    requires l == biased * 0x100 + cls && 0 <= cls < 0x100
    ensures BiasedClass(l) == cls && BiasedIndex(l) == biased % 0x1_0000 - 10
  {
    Shifts(l);
    LowBits(l);
    LowBits(Shr(l, 8));
    DivModUnique(l, 0x100, biased, cls);
  }

  lemma BiasedIndexOf(v: int, sign: int)
    ensures (v + sign * 0x100_0000) % 0x1_0000 == v % 0x1_0000
    ensures v % 0x1_0000 == v <==> 0 <= v < 0x1_0000
  {
    DivModUnique(v + sign * 0x100_0000, 0x1_0000, v / 0x1_0000 + sign * 0x100, v % 0x1_0000);
    if 0 <= v < 0x1_0000 {
      SmallMod(v, 0x1_0000);
    }
  }

  /** The class comes back modulo 256 and the index modulo 2^16 around the
      bias, so a signed index survives exactly when it lies in [-10, 65525]. */
  lemma BiasedRoundTrip(index: int, cls: int)
    ensures BiasedClass(BiasedPack(index, cls)) == cls % 0x100
    ensures BiasedIndex(BiasedPack(index, cls)) == (10 + index) % 0x1_0000 - 10
    ensures BiasedIndex(BiasedPack(index, cls)) == index <==> -10 <= index <= 65525
  {
    hide *;
    var sign := BiasedIsSum(index, cls);
    BiasedParts(BiasedPack(index, cls), 10 + index + sign * 0x100_0000, cls % 0x100);
    BiasedIndexOf(10 + index, sign);
  }

  /** On class bytes and in-range indices the packed word determines both. */
  lemma BiasedInjective(i: int, c: int, i': int, c': int)
    requires -10 <= i <= 65525 && -10 <= i' <= 65525
    requires 0 <= c < 0x100 && 0 <= c' < 0x100
    requires BiasedPack(i, c) == BiasedPack(i', c')
    ensures i == i' && c == c'
  {
    BiasedRoundTrip(i, c);
    BiasedRoundTrip(i', c');
    SmallMod(c, 0x100);
    SmallMod(c', 0x100);
  }

  // ---- the version word: major above bit 24, minor and patch bytes below ----

  datatype Version = Version(major: nat, minor: nat, patch: nat) {

    predicate Less(v: Version) {
      major < v.major || (major == v.major && (minor < v.minor || (minor == v.minor && patch < v.patch)))
    }

    /** Every part fits the bits the word has for it. */
    predicate Fits(longBits: nat)
      requires longBits >= 32
    {
      major < Pow2(longBits - 24) && minor < 0x100 && patch < 0x100
    }
  }

  /** `longBits` is the width of C's unsigned long: 64 natively, 32 in the
      browser build. Each part is cast to unsigned long before it is shifted. */
  function NoticeVer(v: Version, longBits: nat): nat
    requires longBits >= 32
  {
    var m := Pow2(longBits);
    OrNat(OrNat(Shl(v.major, 24) % m, Shl(v.minor, 16) % m), Shl(v.patch, 8) % m)
  }

  function NoticeParts(word: nat): Version {
    Version(ShrNat(word, 24), ShrNat(MaskNat(word, 16), 16), ShrNat(MaskNat(word, 8), 8))
  }

  function OrNat(x: nat, y: nat): nat {
    OrGrows(x, y);
    Or(x, y)
  }

  function ShrNat(x: nat, k: nat): nat {
    DivNat(x, Pow2(k));
    Shr(x, k)
  }

  lemma DivNat(x: nat, d: nat)
    requires d > 0
    ensures x / d >= 0
  {
    MulSize(d, x / d);
  }

  function MaskNat(x: nat, k: nat): nat {
    AndShrinks(x, (Pow2(8) - 1) * Pow2(k));
    MaskAt(x, k, 8)
  }

  lemma {:induction false} OrGrows(x: nat, y: nat)
    ensures Or(x, y) >= x
    decreases y
  {
    if y > 0 {
      OrGrows(x / 2, y / 2);
    }
  }

  lemma {:induction false} AndShrinks(x: nat, m: nat)
    ensures 0 <= And(x, m) <= m
    decreases m
  {
    if m > 0 {
      AndShrinks(x / 2, m / 2);
    }
  }

  lemma {:induction false} OrFits(x: nat, y: nat, k: nat)
    requires x < Pow2(k) && y < Pow2(k)
    ensures Or(x, y) < Pow2(k)
    decreases k
  {
    if k > 0 && y > 0 {
      OrFits(x / 2, y / 2, k - 1);
    }
  }

  lemma PartsAreDigits(word: nat)
    ensures NoticeParts(word) == Version(word / 0x100_0000, word / 0x1_0000 % 0x100, word / 0x100 % 0x100)
  {
    Shifts(word);
    MaskAtIsField(word, 16, 8);
    MaskAtIsField(word, 8, 8);
    LowBits(Shr(word, 16));
    LowBits(Shr(word, 8));
  }

  lemma MajorFits(major: nat, longBits: nat)
    requires longBits >= 32
    ensures major < Pow2(longBits - 24) <==> major * 0x100_0000 < Pow2(longBits)
    ensures Pow2(longBits) >= 0x1_0000_0000
  {
    Pow2Add(longBits - 24, 24);
    Pow2Add(longBits - 32, 32);
    Pow2Constants();
  }

  lemma NoTruncation(v: Version, longBits: nat)
    requires longBits >= 32 && v.Fits(longBits)
    ensures var m := Pow2(longBits);
            && Shl(v.major, 24) % m == v.major * 0x100_0000
            && Shl(v.minor, 16) % m == v.minor * 0x1_0000
            && Shl(v.patch, 8) % m == v.patch * 0x100
  {
    MajorFits(v.major, longBits);
    Shifts(v.major);
    Shifts(v.minor);
    Shifts(v.patch);
    var m := Pow2(longBits);
    SmallMod(v.major * 0x100_0000, m);
    SmallMod(v.minor * 0x1_0000, m);
    SmallMod(v.patch * 0x100, m);
  }

  lemma ThreeFields(major: nat, minor: nat, patch: nat)
    requires minor < 0x100 && patch < 0x100
    ensures Or(Or(major * 0x100_0000, minor * 0x1_0000), patch * 0x100)
         == major * 0x100_0000 + minor * 0x1_0000 + patch * 0x100
  {
    hide *;
    Pow2Constants();
    Shifts(major);
    OrFields(major, minor * 0x1_0000, 24);
    Shifts(major * 0x100 + minor);
    OrFields(major * 0x100 + minor, patch * 0x100, 16);
  }

  lemma NoticeIsSum(v: Version, longBits: nat)
    requires longBits >= 32 && v.Fits(longBits)
    ensures NoticeVer(v, longBits) == v.major * 0x100_0000 + v.minor * 0x1_0000 + v.patch * 0x100
  {
    NoTruncation(v, longBits);
    ThreeFields(v.major, v.minor, v.patch);
  }

  lemma DigitsAbove(v: Version)
    requires v.minor < 0x100 && v.patch < 0x100
    ensures var word := v.major * 0x100_0000 + v.minor * 0x1_0000 + v.patch * 0x100;
            v == Version(word / 0x100_0000, word / 0x1_0000 % 0x100, word / 0x100 % 0x100)
  {
    var word := v.major * 0x100_0000 + v.minor * 0x1_0000 + v.patch * 0x100;
    var l2 := v.major * 0x100 + v.minor;
    DivModUnique(word, 0x100_0000, v.major, v.minor * 0x1_0000 + v.patch * 0x100);
    DivModUnique(word, 0x1_0000, l2, v.patch * 0x100);
    DivModUnique(l2, 0x100, v.major, v.minor);
    DivModUnique(word, 0x100, l2 * 0x100 + v.patch, 0);
    DivModUnique(l2 * 0x100 + v.patch, 0x100, l2, v.patch);
  }

  /** The three extractors return the version that was packed exactly when
      every part fits its field. */
  lemma NoticeRoundTrip(v: Version, longBits: nat)
    requires longBits >= 32
    ensures NoticeParts(NoticeVer(v, longBits)) == v <==> v.Fits(longBits)
  {
    var word := NoticeVer(v, longBits);
    PartsAreDigits(word);
    if v.Fits(longBits) {
      NoticeIsSum(v, longBits);
      DigitsAbove(v);
    } else if NoticeParts(word) == v {
      var m := Pow2(longBits);
      OrFits(Shl(v.major, 24) % m, Shl(v.minor, 16) % m, longBits);
      OrFits(OrNat(Shl(v.major, 24) % m, Shl(v.minor, 16) % m), Shl(v.patch, 8) % m, longBits);
      MajorFits(word / 0x100_0000, longBits);
    }
  }

  /** Comparing packed words compares versions. */
  lemma NoticeOrder(a: Version, b: Version, longBits: nat)
    requires longBits >= 32 && a.Fits(longBits) && b.Fits(longBits)
    ensures NoticeVer(a, longBits) < NoticeVer(b, longBits) <==> a.Less(b)
  {
    NoticeIsSum(a, longBits);
    NoticeIsSum(b, longBits);
  }

  // ---- colours: 8 bits a channel in the terminal, 16 on the screen ----

  /** The screen channel of the terminal colour's byte at bit `k`. */
  function Channel(ta: int, k: nat): int { Low(Shr(ta, k), 8) * 257 }

  function TtyOf(red: int, green: int, blue: int): int {
    Shl(Low(Shr(red, 8), 8), 16) + Shl(Low(Shr(green, 8), 8), 8) + Low(Shr(blue, 8), 8)
  }

  class RgbColor {
    var red: int
    var green: int
    var blue: int

    function ToTty(): int
      reads this
    {
      TtyOf(red, green, blue)
    }

    /** Spreads a terminal colour over the three 16-bit channels, one after the
        other; reading the record back gives the colour modulo 2^24. */
    method FromTty(ta: int)
      modifies this
      ensures red == Channel(ta, 16) && green == Channel(ta, 8) && blue == Channel(ta, 0)
      ensures 0 <= red < 0x1_0000 && 0 <= green < 0x1_0000 && 0 <= blue < 0x1_0000
      ensures ToTty() == ta % 0x100_0000
    {
      red := Low(Shr(ta, 16), 8) * 257;
      green := Low(Shr(ta, 8), 8) * 257;
      Shifts(ta);
      blue := Low(ta, 8) * 257;
      ChannelsAreBytes(ta);
      TtyRoundTrip(ta);
    }
  }

  lemma ChannelsAreBytes(ta: int)
    ensures Channel(ta, 16) == ta / 0x1_0000 % 0x100 * 257
    ensures Channel(ta, 8) == ta / 0x100 % 0x100 * 257
    ensures Channel(ta, 0) == ta % 0x100 * 257
  {
    Shifts(ta);
    LowBits(Shr(ta, 16));
    LowBits(Shr(ta, 8));
    LowBits(Shr(ta, 0));
  }

  lemma TtyIsSum(red: int, green: int, blue: int)
    ensures TtyOf(red, green, blue)
         == red / 0x100 % 0x100 * 0x1_0000 + green / 0x100 % 0x100 * 0x100 + blue / 0x100 % 0x100
  {
    Shifts(red);
    Shifts(green);
    Shifts(blue);
    LowBits(Shr(red, 8));
    LowBits(Shr(green, 8));
    LowBits(Shr(blue, 8));
    Shifts(Low(Shr(red, 8), 8));
    Shifts(Low(Shr(green, 8), 8));
  }

  /** Terminal colour to screen colour and back is the identity modulo 2^24. */
  lemma TtyRoundTrip(ta: int)
    ensures TtyOf(Channel(ta, 16), Channel(ta, 8), Channel(ta, 0)) == ta % 0x100_0000
  {
    ChannelsAreBytes(ta);
    TtyIsSum(Channel(ta, 16), Channel(ta, 8), Channel(ta, 0));
    TimesTwoFiftySeven(ta / 0x1_0000 % 0x100);
    TimesTwoFiftySeven(ta / 0x100 % 0x100);
    TimesTwoFiftySeven(ta % 0x100);
    DivDiv(ta, 0x100, 0x100);
    DivDiv(ta, 0x1_0000, 0x100);
  }

  lemma TimesTwoFiftySeven(b: int)
    requires 0 <= b < 0x100
    ensures b * 257 / 0x100 % 0x100 == b
  {
    DivModUnique(b * 257, 0x100, b, b);
  }

  lemma Quantised(c: int)
    requires 0 <= c < 0x1_0000
    ensures c / 0x100 % 0x100 * 257 / 0x100 == c / 0x100
    ensures -255 <= c / 0x100 % 0x100 * 257 - c <= 255
  {
    var h := c / 0x100;
    SmallMod(h, 0x100);
    DivModUnique(h * 257, 0x100, h, h);
  }

  /** The channels the terminal colour of (red, green, blue) spreads to. */
  lemma RoundTripChannels(red: int, green: int, blue: int)
    ensures var ta := TtyOf(red, green, blue);
            && Channel(ta, 16) == red / 0x100 % 0x100 * 257
            && Channel(ta, 8) == green / 0x100 % 0x100 * 257
            && Channel(ta, 0) == blue / 0x100 % 0x100 * 257
            && 0 <= ta < 0x100_0000
  {
    TtyIsSum(red, green, blue);
    FourBytes(blue / 0x100 % 0x100, green / 0x100 % 0x100, red / 0x100 % 0x100, 0, 0);
    ChannelsAreBytes(TtyOf(red, green, blue));
  }

  /** Screen colour to terminal colour and back keeps each channel's high byte,
      moves the channel by at most 255, and moves nothing the second time. */
  lemma ScreenQuantised(red: int, green: int, blue: int)
    requires 0 <= red < 0x1_0000 && 0 <= green < 0x1_0000 && 0 <= blue < 0x1_0000
    ensures var ta := TtyOf(red, green, blue);
            var r, g, b := Channel(ta, 16), Channel(ta, 8), Channel(ta, 0);
            && r / 0x100 == red / 0x100 && g / 0x100 == green / 0x100 && b / 0x100 == blue / 0x100
            && -255 <= r - red <= 255 && -255 <= g - green <= 255 && -255 <= b - blue <= 255
            && TtyOf(r, g, b) == ta
  {
    var ta := TtyOf(red, green, blue);
    RoundTripChannels(red, green, blue);
    TtyRoundTrip(ta);
    SmallMod(ta, 0x100_0000);
    Quantised(red);
    Quantised(green);
    Quantised(blue);
  }
}
