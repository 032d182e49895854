// Glyph numbering: thirteen families packed into one range of integers, for
// every size of the monster and object tables.

module Glyphs {
  import opened Bits

  const NUM_ZAP := 8
  const MAXPCHARS := 96
  const MAXEXPCHARS := 9
  const EXPL_MAX := 7
  const WARNCOUNT := 6
  const TRAPNUM := 24
  const S_ARROW_TRAP := 42
  const S_VBEAM := 65
  const S_SW_TL := 79
  const S_SW_BR := 86
  const S_EXPLODE1 := 87

  /** What a glyph stands for. */
  datatype Kind =
    | Monster(mon: int)
    | Pet(mon: int)
    | Invisible
    | Detected(mon: int)
    | Body(mon: int)
    | Ridden(mon: int)
    | Object(obj: int)
    | Cmap(sym: int)
    | Explosion(expl: int, sym: int)
    | Zap(beam: int, dir: int)
    | Swallow(mon: int, loc: int)
    | Warning(level: int)
    | Statue(mon: int)

  datatype Obj = Obj(otyp: int, corpsenm: int)

  /** The sizes of the monster and object tables, and the two object types the
      glyph code singles out. */
  datatype Tables = Tables(numMons: int, numObjects: int, corpse: int, statue: int) {

    predicate NonEmpty() { numMons >= 1 && numObjects >= 1 }

    predicate Valid() {
      NonEmpty() && 1 <= corpse < numObjects && 1 <= statue < numObjects && corpse != statue
    }

    // ---- offsets ----

    function MonOff(): int { 0 }
    function PetOff(): int { numMons + MonOff() }
    function InvisOff(): int { numMons + PetOff() }
    function DetectOff(): int { 1 + InvisOff() }
    function BodyOff(): int { numMons + DetectOff() }
    function RiddenOff(): int { numMons + BodyOff() }
    function ObjOff(): int { numMons + RiddenOff() }
    function CmapOff(): int { numObjects + ObjOff() }
    function ExplodeOff(): int { (MAXPCHARS - MAXEXPCHARS) + CmapOff() }
    function ZapOff(): int { MAXEXPCHARS * EXPL_MAX + ExplodeOff() }
    function SwallowOff(): int { Shl(NUM_ZAP, 2) + ZapOff() }
    function WarningOff(): int { Shl(numMons, 3) + SwallowOff() }
    function StatueOff(): int { WARNCOUNT + WarningOff() }
    function MaxGlyph(): int { numMons + StatueOff() }
    function NoGlyph(): int { MaxGlyph() }

    // ---- the encoders that no hallucination touches ----

    function CmapToGlyph(sym: int): int { sym + CmapOff() }

    function ExplosionToGlyph(expl: int, sym: int): int {
      expl * MAXEXPCHARS + (sym - S_EXPLODE1) + ExplodeOff()
    }

    function SwallowToGlyph(mon: int, loc: int): int {
      var where := if loc < S_SW_TL || S_SW_BR < loc then S_SW_BR else loc;
      Or(Shl(mon, 3), where - S_SW_TL) + SwallowOff()
    }

    function ZapToGlyph(dx: int, dy: int, beam: int): int {
      Or(Shl(if beam >= NUM_ZAP then 0 else beam, 2), ZapDir(dx, dy)) + ZapOff()
    }

    function Encode(k: Kind): int {
      match k
      case Monster(m) => m + MonOff()
      case Pet(m) => m + PetOff()
      case Invisible => InvisOff()
      case Detected(m) => m + DetectOff()
      case Body(m) => m + BodyOff()
      case Ridden(m) => m + RiddenOff()
      case Object(o) => o + ObjOff()
      case Cmap(sym) => CmapToGlyph(sym)
      case Explosion(expl, sym) => ExplosionToGlyph(expl, sym)
      case Zap(beam, dir) => ZapToGlyph(ZapDx(dir), ZapDy(dir), beam)
      case Swallow(m, loc) => SwallowToGlyph(m, loc)
      case Warning(level) => level + WarningOff()
      case Statue(m) => m + StatueOff()
    }

    predicate InRange(k: Kind) {
      match k
      case Invisible => true
      case Object(o) => 0 <= o < numObjects
      case Cmap(sym) => 0 <= sym < MAXPCHARS
      case Explosion(expl, sym) => 0 <= expl < EXPL_MAX && S_EXPLODE1 <= sym < MAXPCHARS
      case Zap(beam, dir) => 0 <= beam < NUM_ZAP && 0 <= dir < 4
      case Swallow(m, loc) => 0 <= m < numMons && S_SW_TL <= loc <= S_SW_BR
      case Warning(level) => 0 <= level < WARNCOUNT
      case _ => 0 <= k.mon < numMons
    }

    // ---- range predicates ----

    predicate IsNormalMonster(g: int) { MonOff() <= g < MonOff() + numMons }
    predicate IsPet(g: int) { PetOff() <= g < PetOff() + numMons }
    predicate IsInvisible(g: int) { g == InvisOff() }
    predicate IsDetected(g: int) { DetectOff() <= g < DetectOff() + numMons }
    predicate IsBody(g: int) { BodyOff() <= g < BodyOff() + numMons }
    predicate IsRidden(g: int) { RiddenOff() <= g < RiddenOff() + numMons }
    predicate IsNormalObject(g: int) { ObjOff() <= g < ObjOff() + numObjects }
    predicate IsCmap(g: int) { CmapOff() <= g < CmapOff() + MAXPCHARS }
    predicate IsTrap(g: int) {
      CmapOff() + TrapToDefsym(1) <= g < CmapOff() + TrapToDefsym(1) + TRAPNUM
    }
    predicate IsSwallow(g: int) { SwallowOff() <= g < SwallowOff() + Shl(numMons, 3) }
    predicate IsWarning(g: int) { WarningOff() <= g < WarningOff() + WARNCOUNT }
    predicate IsStatue(g: int) { StatueOff() <= g < StatueOff() + numMons }
    predicate IsMonster(g: int) { IsNormalMonster(g) || IsPet(g) || IsRidden(g) || IsDetected(g) }
    predicate IsObject(g: int) { IsNormalObject(g) || IsStatue(g) || IsBody(g) }

    // ---- decoders ----

    function ToMon(g: int): int {
      if IsNormalMonster(g) then g - MonOff()
      else if IsPet(g) then g - PetOff()
      else if IsDetected(g) then g - DetectOff()
      else if IsRidden(g) then g - RiddenOff()
      else if IsStatue(g) then g - StatueOff()
      else NoGlyph()
    }

    function ToObj(g: int): int {
      if IsBody(g) then corpse
      else if IsStatue(g) then statue
      else if IsNormalObject(g) then g - ObjOff()
      else NoGlyph()
    }

    function ToTrap(g: int): int { if IsTrap(g) then DefsymToTrap(g - CmapOff()) else NoGlyph() }

    function ToCmap(g: int): int { if IsCmap(g) then g - CmapOff() else NoGlyph() }

    function ToSwallow(g: int): int { if IsSwallow(g) then Low(g - SwallowOff(), 3) else 0 }

    function ToWarning(g: int): int { if IsWarning(g) then g - WarningOff() else NoGlyph() }

    /** The display code's own reading of a glyph: one cascade down the offsets. */
    function MapGlyph(g: int): Kind {
      if g - StatueOff() >= 0 then Statue(g - StatueOff())
      else if g - WarningOff() >= 0 then Warning(g - WarningOff())
      else if g - SwallowOff() >= 0 then Swallow(Shr(g - SwallowOff(), 3), S_SW_TL + Low(g - SwallowOff(), 3))
      else if g - ZapOff() >= 0 then Zap(Shr(g - ZapOff(), 2), Low(g - ZapOff(), 2))
      else if g - ExplodeOff() >= 0 then
        Explosion((g - ExplodeOff()) / MAXEXPCHARS, (g - ExplodeOff()) % MAXEXPCHARS + S_EXPLODE1)
      else if g - CmapOff() >= 0 then Cmap(g - CmapOff())
      else if g - ObjOff() >= 0 then Object(g - ObjOff())
      else if g - RiddenOff() >= 0 then Ridden(g - RiddenOff())
      else if g - BodyOff() >= 0 then Body(g - BodyOff())
      else if g - DetectOff() >= 0 then Detected(g - DetectOff())
      else if g - InvisOff() >= 0 then Invisible
      else if g - PetOff() >= 0 then Pet(g - PetOff())
      else Monster(g)
    }

    /** The twelve borders between the families, with 0 and MAX_GLYPH around them. */
    function Border(i: nat): int
      requires i <= 13
    {
      match i
      case 0 => MonOff()
      case 1 => PetOff()
      case 2 => InvisOff()
      case 3 => DetectOff()
      case 4 => BodyOff()
      case 5 => RiddenOff()
      case 6 => ObjOff()
      case 7 => CmapOff()
      case 8 => ExplodeOff()
      case 9 => ZapOff()
      case 10 => SwallowOff()
      case 11 => WarningOff()
      case 12 => StatueOff()
      case 13 => MaxGlyph()
    }
  }

  /** The family of a kind, numbered as in `Border`. */
  function Family(k: Kind): nat {
    match k
    case Monster(_) => 0
    case Pet(_) => 1
    case Invisible => 2
    case Detected(_) => 3
    case Body(_) => 4
    case Ridden(_) => 5
    case Object(_) => 6
    case Cmap(_) => 7
    case Explosion(_, _) => 8
    case Zap(_, _) => 9
    case Swallow(_, _) => 10
    case Warning(_) => 11
    case Statue(_) => 12
  }

  function TrapToDefsym(trap: int): int { S_ARROW_TRAP + trap - 1 }

  function DefsymToTrap(sym: int): int { sym - S_ARROW_TRAP + 1 }

  /** Which of the four zap symbols | - \ / a direction is drawn with. */
  function ZapDir(dx: int, dy: int): nat {
    if dx == dy then 2 else if dx != 0 && dy != 0 then 3 else if dx != 0 then 1 else 0
  }

  function ZapDx(dir: int): int { if dir == 0 then 0 else 1 }

  function ZapDy(dir: int): int { if dir == 0 || dir == 2 then 1 else if dir == 3 then -1 else 0 }

  /** The one overlap: the last MAXEXPCHARS map symbols are drawn with the
      glyphs of the first explosion type. */
  function Canonical(k: Kind): Kind {
    if k.Cmap? && k.sym >= S_EXPLODE1 then Explosion(0, k.sym) else k
  }

  // ---- mixed radix ----

  lemma SmallPowers()
    ensures Pow2(2) == 4 && Pow2(3) == 8
  {
  }

  /** A number and a digit below it, packed with a shift and read back. */
  lemma DigitBelow(high: int, digit: nat, k: nat)
    requires digit < Pow2(k)
    ensures var w := Or(Shl(high, k), digit);
            w == high * Pow2(k) + digit && Shr(w, k) == high && Low(w, k) == digit
  {
    OrFields(high, digit, k);
    MaskIsMod(Or(Shl(high, k), digit), k);
    DivModUnique(high * Pow2(k) + digit, Pow2(k), high, digit);
  }

  lemma DigitsOf(w: int, k: nat)
    ensures 0 <= Low(w, k) < Pow2(k) && Or(Shl(Shr(w, k), k), Low(w, k)) == w
  {
    hide And, Or;
    MaskIsMod(w, k);
    OrFields(Shr(w, k), w % Pow2(k), k);
    assert w == Pow2(k) * (w / Pow2(k)) + w % Pow2(k);
  }

  // ---- the numbering ----

  lemma OffsetsSum(t: Tables)
    ensures t.SwallowOff() == t.ZapOff() + 32 && t.WarningOff() == t.SwallowOff() + 8 * t.numMons
    ensures t.MaxGlyph() == 14 * t.numMons + t.numObjects + 189
  {
    SmallPowers();
  }

  /** Swallow and zap words are mixed-radix numbers. */
  lemma SwallowDigits(t: Tables, mon: int, loc: int)
    requires S_SW_TL <= loc <= S_SW_BR
    ensures t.SwallowToGlyph(mon, loc) == mon * 8 + (loc - S_SW_TL) + t.SwallowOff()
  {
    SmallPowers();
    DigitBelow(mon, loc - S_SW_TL, 3);
  }

  lemma ZapDigits(t: Tables, dx: int, dy: int, beam: int)
    ensures t.ZapToGlyph(dx, dy, beam) == (if beam >= NUM_ZAP then 0 else beam) * 4 + ZapDir(dx, dy) + t.ZapOff()
  {
    SmallPowers();
    DigitBelow(if beam >= NUM_ZAP then 0 else beam, ZapDir(dx, dy), 2);
  }

  /** The display code's cascade reads back whatever was encoded, up to the one
      overlap, and every encoded glyph is a glyph. */
  lemma MapGlyphInvertsEncode(t: Tables, k: Kind)
    requires t.NonEmpty() && t.InRange(k)
    ensures 0 <= t.Encode(k) < t.MaxGlyph()
    ensures t.MapGlyph(t.Encode(k)) == Canonical(k)
  {
    if k.Swallow? {
      SwallowReadsBack(t, k);
    } else if k.Zap? {
      ZapReadsBack(t, k);
    } else {
      PlainReadsBack(t, k);
    }
  }

  lemma SwallowReadsBack(t: Tables, k: Kind)
    requires t.NonEmpty() && t.InRange(k) && k.Swallow?
    ensures 0 <= t.Encode(k) < t.MaxGlyph() && t.MapGlyph(t.Encode(k)) == k
  {
    hide And, Or;
    OffsetsSum(t);
    SmallPowers();
    SwallowDigits(t, k.mon, k.loc);
    DigitBelow(k.mon, k.loc - S_SW_TL, 3);
  }

  lemma ZapReadsBack(t: Tables, k: Kind)
    requires t.NonEmpty() && t.InRange(k) && k.Zap?
    ensures 0 <= t.Encode(k) < t.MaxGlyph() && t.MapGlyph(t.Encode(k)) == k
  {
    hide And, Or;
    OffsetsSum(t);
    SmallPowers();
    ZapDigits(t, ZapDx(k.dir), ZapDy(k.dir), k.beam);
    DigitBelow(k.beam, k.dir, 2);
  }

  lemma PlainReadsBack(t: Tables, k: Kind)
    requires t.NonEmpty() && t.InRange(k) && !k.Swallow? && !k.Zap?
    ensures 0 <= t.Encode(k) < t.MaxGlyph() && t.MapGlyph(t.Encode(k)) == Canonical(k)
  {
    OffsetsSum(t);
    hide And, Or, Shl, Shr, Low;
    match k
    case Explosion(expl, sym) =>
      DivModUnique(t.Encode(k) - t.ExplodeOff(), MAXEXPCHARS, expl, sym - S_EXPLODE1);
    case Cmap(sym) =>
      if sym >= S_EXPLODE1 {
        DivModUnique(t.Encode(k) - t.ExplodeOff(), MAXEXPCHARS, 0, sym - S_EXPLODE1);
      }
    case _ =>
  }

  /** Every glyph is the encoding of what the cascade reads in it, which is in
      range: no glyph is unused. */
  lemma EncodeInvertsMapGlyph(t: Tables, g: int)
    requires t.NonEmpty() && 0 <= g < t.MaxGlyph()
    ensures t.InRange(t.MapGlyph(g)) && Canonical(t.MapGlyph(g)) == t.MapGlyph(g)
    ensures t.Encode(t.MapGlyph(g)) == g
  {
    MapGlyphCanonical(t, g);
    hide *;
    var k := t.MapGlyph(g);
    if k.Swallow? {
      SwallowReencodes(t, g);
    } else if k.Zap? {
      ZapReencodes(t, g);
    } else {
      PlainReencodes(t, g);
    }
  }

  lemma MapGlyphCanonical(t: Tables, g: int)
    ensures Canonical(t.MapGlyph(g)) == t.MapGlyph(g)
  {
    hide Shl, Shr, Low;
  }

  lemma PlainReencodes(t: Tables, g: int)
    requires t.NonEmpty() && 0 <= g < t.MaxGlyph() && !t.MapGlyph(g).Swallow? && !t.MapGlyph(g).Zap?
    ensures t.InRange(t.MapGlyph(g)) && t.Encode(t.MapGlyph(g)) == g
  {
    OffsetsSum(t);
    hide And, Or, Shl, Shr, Low;
  }

  lemma SwallowReencodes(t: Tables, g: int)
    requires t.NonEmpty() && 0 <= g < t.MaxGlyph() && t.MapGlyph(g).Swallow?
    ensures t.InRange(t.MapGlyph(g)) && t.Encode(t.MapGlyph(g)) == g
  {
    hide And, Or;
    OffsetsSum(t);
    SmallPowers();
    var k := t.MapGlyph(g);
    DigitsOf(g - t.SwallowOff(), 3);
    SwallowDigits(t, k.mon, k.loc);
    DigitBelow(k.mon, k.loc - S_SW_TL, 3);
  }

  lemma ZapReencodes(t: Tables, g: int)
    requires t.NonEmpty() && 0 <= g < t.MaxGlyph() && t.MapGlyph(g).Zap?
    ensures t.InRange(t.MapGlyph(g)) && t.Encode(t.MapGlyph(g)) == g
  {
    hide And, Or;
    OffsetsSum(t);
    SmallPowers();
    var k := t.MapGlyph(g);
    DigitsOf(g - t.ZapOff(), 2);
    ZapDigits(t, ZapDx(k.dir), ZapDy(k.dir), k.beam);
    DigitBelow(k.beam, k.dir, 2);
  }

  /** Two things share a glyph exactly when they are equal or are a map symbol
      and the dark explosion drawn with that very symbol. */
  lemma GlyphsCollide(t: Tables, a: Kind, b: Kind)
    requires t.NonEmpty() && t.InRange(a) && t.InRange(b)
    ensures t.Encode(a) == t.Encode(b) <==> Canonical(a) == Canonical(b)
    ensures a != b && Canonical(a) == Canonical(b) <==>
            || (a.Cmap? && S_EXPLODE1 <= a.sym && b == Explosion(0, a.sym))
            || (b.Cmap? && S_EXPLODE1 <= b.sym && a == Explosion(0, b.sym))
  {
    hide And, Or;
    MapGlyphInvertsEncode(t, a);
    MapGlyphInvertsEncode(t, b);
    if Canonical(a) == Canonical(b) {
      CanonicalKeepsGlyph(t, a);
      CanonicalKeepsGlyph(t, b);
    }
  }

  lemma CanonicalKeepsGlyph(t: Tables, k: Kind)
    ensures t.Encode(Canonical(k)) == t.Encode(k)
  {
  }

  /** The thirteen families tile [0, MAX_GLYPH): the borders increase strictly,
      and a glyph lies between two of them exactly when the cascade reads that
      family in it. NO_GLYPH lies in none. */
  lemma FamiliesTile(t: Tables, g: int, i: nat)
    requires t.NonEmpty() && i < 13
    ensures t.Border(0) == 0 && t.Border(13) == t.MaxGlyph() == t.NoGlyph()
    ensures t.Border(i) < t.Border(i + 1)
    ensures 0 <= g < t.MaxGlyph() ==> (t.Border(i) <= g < t.Border(i + 1) <==> Family(t.MapGlyph(g)) == i)
  {
    OffsetsSum(t);
    hide And, Or, Shl, Shr, Low;
  }

  /** Each range predicate picks out its own family among all integers, except
      that the one for map symbols also takes the dark explosions, and no other
      explosion. */
  lemma PredicatesMatchFamilies(t: Tables, g: int)
    requires t.NonEmpty()
    ensures var k := t.MapGlyph(g);
            var glyph := 0 <= g < t.MaxGlyph();
            && (t.IsNormalMonster(g) <==> glyph && k.Monster?)
            && (t.IsPet(g) <==> glyph && k.Pet?)
            && (t.IsInvisible(g) <==> glyph && k.Invisible?)
            && (t.IsDetected(g) <==> glyph && k.Detected?)
            && (t.IsBody(g) <==> glyph && k.Body?)
            && (t.IsRidden(g) <==> glyph && k.Ridden?)
            && (t.IsNormalObject(g) <==> glyph && k.Object?)
            && (t.IsCmap(g) <==> glyph && (k.Cmap? || (k.Explosion? && k.expl == 0)))
            && (t.IsSwallow(g) <==> glyph && k.Swallow?)
            && (t.IsWarning(g) <==> glyph && k.Warning?)
            && (t.IsStatue(g) <==> glyph && k.Statue?)
            && (t.IsTrap(g) <==> glyph && k.Cmap? && TrapToDefsym(1) <= k.sym <= S_VBEAM)
  {
    hide And, Or;
    OffsetsSum(t);
    SmallPowers();
  }

  /** The decoders, on every integer: what they return is what the cascade reads
      there, and NO_GLYPH (0 for a swallow position) outside their families.
      Bodies and statues lose their monster in the object decoder only. */
  lemma DecodersAgree(t: Tables, g: int)
    requires t.NonEmpty()
    ensures var k := t.MapGlyph(g);
            && t.ToMon(g) == (if t.IsMonster(g) || t.IsStatue(g) then k.mon else t.NoGlyph())
            && t.ToObj(g) == (if !t.IsObject(g) then t.NoGlyph()
                              else if k.Body? then t.corpse
                              else if k.Statue? then t.statue
                              else k.obj)
            && t.ToCmap(g) == (if t.IsCmap(g) then k.sym else t.NoGlyph())
            && t.ToSwallow(g) == (if t.IsSwallow(g) then k.loc - S_SW_TL else 0)
            && t.ToWarning(g) == (if t.IsWarning(g) then k.level else t.NoGlyph())
            && t.ToTrap(g) == (if t.IsTrap(g) then DefsymToTrap(k.sym) else t.NoGlyph())
  {
    hide And, Or;
    PredicatesMatchFamilies(t, g);
  }

  /** A decoder says NO_GLYPH exactly outside its family; anything else it says
      is a valid index, and that index encodes back to the same glyph within the
      family the glyph is in. */
  lemma DecodersReencode(t: Tables, g: int)
    requires t.Valid()
    ensures t.ToMon(g) == t.NoGlyph() <==> !(t.IsMonster(g) || t.IsStatue(g))
    ensures t.ToMon(g) != t.NoGlyph() ==>
              && 0 <= t.ToMon(g) < t.numMons
              && g == t.ToMon(g) + t.Border(Family(t.MapGlyph(g)))
    ensures t.ToObj(g) == t.NoGlyph() <==> !t.IsObject(g)
    ensures t.ToObj(g) != t.NoGlyph() ==>
              && 0 <= t.ToObj(g) < t.numObjects
              && (g == t.Encode(Object(t.ToObj(g))) <==> t.IsNormalObject(g))
    ensures t.ToCmap(g) == t.NoGlyph() <==> !t.IsCmap(g)
    ensures t.ToCmap(g) != t.NoGlyph() ==> t.InRange(Cmap(t.ToCmap(g))) && g == t.Encode(Cmap(t.ToCmap(g)))
  {
    hide And, Or;
    PredicatesMatchFamilies(t, g);
    DecodersAgree(t, g);
    OffsetsSum(t);
  }

  // ---- traps ----

  function TrapToGlyph(t: Tables, trap: int): int { t.CmapToGlyph(TrapToDefsym(trap)) }

  /** Trap glyphs decode to their trap. The glyphs taken for traps are those of
      the traps 1 to TRAPNUM - 1 and one more, the vertical zap beam's symbol,
      which decodes to TRAPNUM, no trap at all. */
  lemma TrapGlyphs(t: Tables, g: int)
    requires t.NonEmpty()
    ensures forall trap | 1 <= trap < TRAPNUM :: t.IsTrap(TrapToGlyph(t, trap)) && t.ToTrap(TrapToGlyph(t, trap)) == trap
    ensures t.IsTrap(g) <==>
            (exists trap | 1 <= trap < TRAPNUM :: g == TrapToGlyph(t, trap)) || g == t.Encode(Cmap(S_VBEAM))
    ensures t.ToTrap(t.Encode(Cmap(S_VBEAM))) == TRAPNUM
  {
    OffsetsSum(t);
    if t.IsTrap(g) && g != t.Encode(Cmap(S_VBEAM)) {
      var trap := t.ToTrap(g);
      assert 1 <= trap < TRAPNUM && g == TrapToGlyph(t, trap);
    }
  }

  // ---- zap beams ----

  /** A beam looks the same from both ends, the four symbols are told apart, and
      the glyph is a zap glyph exactly when the beam type is not negative: a
      type that is too large is drawn as type 0, one below 0 is not caught. */
  lemma ZapGlyphs(t: Tables, dx: int, dy: int, beam: int)
    requires t.NonEmpty()
    ensures t.ZapToGlyph(-dx, -dy, beam) == t.ZapToGlyph(dx, dy, beam)
    ensures t.ZapOff() <= t.ZapToGlyph(dx, dy, beam) < t.SwallowOff() <==> beam >= 0
    ensures beam >= 0 ==>
            t.MapGlyph(t.ZapToGlyph(dx, dy, beam)) == Zap(if beam >= NUM_ZAP then 0 else beam, ZapDir(dx, dy))
    ensures ZapDir(dx, dy) == 0 <==> dx == 0 && dy != 0
    ensures ZapDir(dx, dy) == 1 <==> dx != 0 && dy == 0
    ensures -1 <= dx <= 1 && -1 <= dy <= 1 && dx * dy != 0 ==> (ZapDir(dx, dy) == 2 <==> dx * dy == 1)
  {
    hide And, Or;
    ZapDigits(t, dx, dy, beam);
    ZapDigits(t, -dx, -dy, beam);
    OffsetsSum(t);
    if beam >= 0 {
      var b := if beam >= NUM_ZAP then 0 else beam;
      var dir := ZapDir(dx, dy);
      MapGlyphInvertsEncode(t, Zap(b, dir));
      ZapDigits(t, ZapDx(dir), ZapDy(dir), b);
    }
  }

  /** A swallow location out of range is drawn as the last one. */
  lemma SwallowGlyphs(t: Tables, mon: int, loc: int)
    requires t.NonEmpty() && 0 <= mon < t.numMons
    ensures var where := if S_SW_TL <= loc <= S_SW_BR then loc else S_SW_BR;
            var g := t.SwallowToGlyph(mon, loc);
            && t.IsSwallow(g) && t.ToSwallow(g) == where - S_SW_TL
            && t.MapGlyph(g) == Swallow(mon, where)
  {
    hide And, Or;
    var where := if S_SW_TL <= loc <= S_SW_BR then loc else S_SW_BR;
    var g := t.SwallowToGlyph(mon, loc);
    assert g == t.SwallowToGlyph(mon, where) == t.Encode(Swallow(mon, where));
    MapGlyphInvertsEncode(t, Swallow(mon, where));
    PredicatesMatchFamilies(t, g);
    DecodersAgree(t, g);
  }

  /** With the tables of this version every glyph fits a signed 16-bit cell. */
  lemma GlyphsFitObservation(t: Tables, k: Kind)
    requires t.NonEmpty() && t.InRange(k)
    requires t.numMons <= 382 && t.numObjects <= 454
    ensures 0 <= t.Encode(k) < t.NoGlyph() <= 5991 < 0x8000
  {
    OffsetsSum(t);
    MapGlyphInvertsEncode(t, k);
  }

  /** The tables spoken of are those in which no family is empty; the object tables
      those in which the stone, the corpse and the statue are three objects. */
  lemma TablesExact(t: Tables)
    ensures t.NonEmpty() <==> forall i: nat | i < 13 :: t.Border(i) < t.Border(i + 1)
    ensures var three := [0, t.corpse, t.statue];
            t.Valid() <==>
              && t.NonEmpty() && (forall i | 0 <= i < 3 :: 0 <= three[i] < t.numObjects)
              && forall i, j | 0 <= i < j < 3 :: three[i] != three[j]
  {
    if t.NonEmpty() {
      forall i: nat | i < 13 ensures t.Border(i) < t.Border(i + 1) {
        FamiliesTile(t, 0, i);
      }
    } else {
      BordersApart(t);
      assert t.Border(0) >= t.Border(0 + 1) || t.Border(6) >= t.Border(6 + 1);
    }
    hide Tables.Border, Tables.NonEmpty;
    var three := [0, t.corpse, t.statue];
    assert three[0] == 0 && three[1] == t.corpse && three[2] == t.statue;
  }

  lemma BordersApart(t: Tables)
    ensures t.Border(1) - t.Border(0) == t.numMons && t.Border(7) - t.Border(6) == t.numObjects
  {
    hide Shl;
  }

  // ---- objects, and hallucination ----

  /** What an object looks like to a clear head. */
  function ObjKind(t: Tables, o: Obj): Kind {
    if o.otyp == t.statue then Statue(o.corpsenm)
    else if o.otyp == t.corpse then Body(o.corpsenm)
    else Object(o.otyp)
  }

  predicate ValidObj(t: Tables, o: Obj) {
    0 <= o.otyp < t.numObjects && (o.otyp == t.statue || o.otyp == t.corpse ==> 0 <= o.corpsenm < t.numMons)
  }

  /** The objects that there can be are those whose look is in range. */
  lemma ValidObjExact(t: Tables, o: Obj)
    requires t.Valid()
    ensures ValidObj(t, o) <==> t.InRange(ObjKind(t, o))
  {
  }

  /** What the generator's next word makes of a draw below `x`. */
  function Draw<S>(next: S -> (nat, S), s: S, x: int): (r: int)
    requires x > 0
    ensures 0 <= r < x && exists q: nat :: next(s).0 == q * x + r
  {
    var word := next(s).0;
    assert word == word / x * x + word % x;
    word % x
  }

  /** Which fixes it. */
  lemma DrawExact<S>(next: S -> (nat, S), s: S, x: int, q: nat, r: int)
    requires x > 0 && 0 <= r < x && next(s).0 == q * x + r
    ensures Draw(next, s, x) == r
  {
    DivModUnique(next(s).0, x, q, r);
  }

  /** What a hallucinated object looks like, from the generator's next words. */
  function DreamtKind<S>(t: Tables, next: S -> (nat, S), s: S, o: Obj): Kind
    requires t.Valid()
  {
    if o.otyp == t.statue then Monster(Draw(next, s, t.numMons))
    else
      var otyp := Draw(next, s, t.numObjects - 1) + 1;
      if otyp == t.corpse then Body(Draw(next, next(s).1, t.numMons)) else Object(otyp)
  }

  /** The generator after a dream of `o`: one draw, or two for a dreamt corpse. */
  function DreamtState<S>(t: Tables, next: S -> (nat, S), s: S, o: Obj): S
    requires t.Valid()
  {
    if o.otyp != t.statue && Draw(next, s, t.numObjects - 1) + 1 == t.corpse then next(next(s).1).1 else next(s).1
  }

  /** The four ways a monster is drawn. */
  datatype Guise = Wild | Tamed | Sensed | Mounted

  function MonKind(guise: Guise, mon: int): Kind {
    match guise
    case Wild => Monster(mon)
    case Tamed => Pet(mon)
    case Sensed => Detected(mon)
    case Mounted => Ridden(mon)
  }

  lemma GuiseGlyphs(t: Tables, guise: Guise, mon: int)
    requires t.NonEmpty()
    ensures t.Encode(MonKind(guise, mon)) == mon + match guise
                                                   case Wild => t.MonOff()
                                                   case Tamed => t.PetOff()
                                                   case Sensed => t.DetectOff()
                                                   case Mounted => t.RiddenOff()
    ensures 0 <= mon < t.numMons ==> t.MapGlyph(t.Encode(MonKind(guise, mon))) == MonKind(guise, mon)
  {
    if 0 <= mon < t.numMons {
      MapGlyphInvertsEncode(t, MonKind(guise, mon));
    }
  }

  /** Encoding objects: the display generator is advanced as the macros advance it. */
  class Painter<S(0)> {
    const t: Tables
    const next: S -> (nat, S) // the generator: the next word and the state after it
    var rng: S
    var otgTemp: int

    constructor (t: Tables, next: S -> (nat, S), seed: S)
      ensures this.t == t && this.next == next && rng == seed && otgTemp == 0
    {
      this.t := t;
      this.next := next;
      rng := seed;
      otgTemp := 0;
    }

    method Rn2OnDisplayRng(x: int) returns (r: int)
      requires x > 0
      modifies `rng
      ensures r == Draw(next, old(rng), x) && rng == next(old(rng)).1
      ensures 0 <= r < x && exists q: nat :: next(old(rng)).0 == q * x + r
    {
      var (word, after) := next(rng);
      rng := after;
      r := word % x;
    }

    method RandomObjToGlyph() returns (g: int)
      requires t.Valid()
      modifies `rng, `otgTemp
      ensures forall o: Obj | o.otyp != t.statue :: g == t.Encode(DreamtKind(t, next, old(rng), o))
      ensures otgTemp == Draw(next, old(rng), t.numObjects - 1) + 1
      ensures rng == if otgTemp == t.corpse then next(next(old(rng)).1).1 else next(old(rng)).1
    {
      otgTemp := Rn2OnDisplayRng(t.numObjects - 1);
      otgTemp := otgTemp + 1;
      if otgTemp == t.corpse {
        var m := Rn2OnDisplayRng(t.numMons);
        g := m + t.BodyOff();
      } else {
        g := otgTemp + t.ObjOff();
      }
    }

    method ObjToGlyph(o: Obj, hallucination: bool) returns (g: int)
      requires t.Valid()
      modifies `rng, `otgTemp
      ensures g == t.Encode(if hallucination then DreamtKind(t, next, old(rng), o) else ObjKind(t, o))
      ensures rng == if hallucination then DreamtState(t, next, old(rng), o) else old(rng)
      ensures otgTemp == if hallucination && o.otyp != t.statue then Draw(next, old(rng), t.numObjects - 1) + 1 else old(otgTemp)
    {
      if o.otyp == t.statue {
        if hallucination {
          var m := Rn2OnDisplayRng(t.numMons);
          g := m + t.MonOff();
        } else {
          g := o.corpsenm + t.StatueOff();
        }
      } else if hallucination {
        g := RandomObjToGlyph();
      } else if o.otyp == t.corpse {
        g := o.corpsenm + t.BodyOff();
      } else {
        g := o.otyp + t.ObjOff();
      }
    }

    /** what_mon: the monster, or a random one to a hallucinating hero. */
    method WhatMon(mon: int, hallucination: bool) returns (m: int)
      requires t.numMons > 0
      modifies `rng
      ensures m == if hallucination then Draw(next, old(rng), t.numMons) else mon
      ensures rng == if hallucination then next(old(rng)).1 else old(rng)
    {
      m := mon;
      if hallucination {
        m := Rn2OnDisplayRng(t.numMons);
      }
    }

    /** A monster's glyph, in whichever of the four families. */
    method MonToGlyph(guise: Guise, mon: int, hallucination: bool) returns (g: int)
      requires t.NonEmpty()
      modifies `rng
      ensures var kind := MonKind(guise, if hallucination then Draw(next, old(rng), t.numMons) else mon);
              g == t.Encode(kind) && (hallucination || 0 <= mon < t.numMons ==> t.MapGlyph(g) == kind)
      ensures rng == if hallucination then next(old(rng)).1 else old(rng)
    {
      var m := WhatMon(mon, hallucination);
      GuiseGlyphs(t, guise, m);
      match guise
      case Wild => g := m + t.MonOff();
      case Tamed => g := m + t.PetOff();
      case Sensed => g := m + t.DetectOff();
      case Mounted => g := m + t.RiddenOff();
    }

    /** The hero's surroundings inside a monster, one place of them. */
    method SwallowGlyph(mon: int, loc: int, hallucination: bool) returns (g: int)
      requires t.NonEmpty()
      modifies `rng
      ensures var m := if hallucination then Draw(next, old(rng), t.numMons) else mon;
              && g == t.SwallowToGlyph(m, loc)
              && (hallucination || 0 <= mon < t.numMons ==>
                    t.MapGlyph(g) == Swallow(m, if S_SW_TL <= loc <= S_SW_BR then loc else S_SW_BR))
      ensures rng == if hallucination then next(old(rng)).1 else old(rng)
    {
      hide And, Tables.MapGlyph;
      var where := loc;
      if loc < S_SW_TL || S_SW_BR < loc {
        where := S_SW_BR;
      }
      var m := WhatMon(mon, hallucination);
      g := Or(Shl(m, 3), where - S_SW_TL) + t.SwallowOff();
      if 0 <= m < t.numMons {
        SwallowGlyphs(t, m, loc);
      }
    }

    method TrapGlyph(trap: int, hallucination: bool) returns (g: int)
      requires t.NonEmpty()
      modifies `rng
      ensures g == TrapToGlyph(t, if hallucination then Draw(next, old(rng), TRAPNUM - 1) + 1 else trap)
      ensures hallucination || 1 <= trap < TRAPNUM ==> t.IsTrap(g) && 1 <= t.ToTrap(g) < TRAPNUM
      ensures rng == if hallucination then next(old(rng)).1 else old(rng)
    {
      var what := trap;
      if hallucination {
        what := Rn2OnDisplayRng(TRAPNUM - 1);
        what := what + 1;
      }
      g := t.CmapToGlyph(TrapToDefsym(what));
      TrapGlyphs(t, g);
    }
  }

  /** A clear head can tell an object's type from its glyph, and whose statue or
      corpse it is. */
  lemma ObjectGlyphs(t: Tables, o: Obj)
    requires t.Valid() && ValidObj(t, o)
    ensures var g := t.Encode(ObjKind(t, o));
            && t.IsObject(g) && t.ToObj(g) == o.otyp
            && (o.otyp == t.statue ==> t.ToMon(g) == o.corpsenm)
            && (o.otyp == t.corpse ==> t.MapGlyph(g) == Body(o.corpsenm))
  {
    var k := ObjKind(t, o);
    MapGlyphInvertsEncode(t, k);
    PredicatesMatchFamilies(t, t.Encode(k));
    DecodersAgree(t, t.Encode(k));
  }

  /** Hallucinating, whatever the generator yields: a statue looks like some wild
      monster; anything else like some body or object, never the stone nor the
      generic corpse, and never a particular statue. */
  lemma DreamtGlyphs<S>(t: Tables, next: S -> (nat, S), s: S, o: Obj)
    requires t.Valid()
    ensures var k := DreamtKind(t, next, s, o);
            var g := t.Encode(k);
            && t.InRange(k)
            && (o.otyp == t.statue ==> t.IsNormalMonster(g))
            && (o.otyp != t.statue ==> (t.IsBody(g) || t.IsNormalObject(g)) && 1 <= t.ToObj(g) && g != t.Encode(Object(t.corpse)))
  {
    hide And, Or;
    var k := DreamtKind(t, next, s, o);
    MapGlyphInvertsEncode(t, k);
    PredicatesMatchFamilies(t, t.Encode(k));
    DecodersAgree(t, t.Encode(k));
    GlyphsCollide(t, k, Object(t.corpse));
  }

  // ---- a hallucinating hero may see anything ----

  /** A generator that yields these words one after the other. */
  function Words(words: seq<nat>): nat -> (nat, nat) {
    (s: nat) => (if s < |words| then words[s] else 0, s + 1)
  }

  lemma WordDrawn(words: seq<nat>, s: nat, x: int)
    requires s < |words| && words[s] < x
    ensures Draw(Words(words), s, x) == words[s] && Words(words)(s).1 == s + 1
  {
    DrawExact(Words(words), s, x, 0, words[s]);
  }

  /** Every monster, in whichever guise, is seen with some generator. */
  lemma EveryMonsterDreamt(t: Tables, guise: Guise, m: nat) returns (next: nat -> (nat, nat))
    requires t.NonEmpty() && m < t.numMons
    ensures t.MapGlyph(t.Encode(MonKind(guise, Draw(next, 0, t.numMons)))) == MonKind(guise, m)
  {
    next := Words([m]);
    WordDrawn([m], 0, t.numMons);
    GuiseGlyphs(t, guise, m);
  }

  /** What an object can look like to a hallucinating hero: a statue like any wild
      monster and nothing else; anything else like any object but the generic corpse,
      or like the body of any monster, and nothing else. */
  lemma DreamsExactly(t: Tables, o: Obj, k: Kind)
    requires t.Valid()
    ensures (exists words :: DreamtKind(t, Words(words), 0, o) == k) <==>
              if o.otyp == t.statue then k.Monster? && 0 <= k.mon < t.numMons
              else || (k.Object? && 1 <= k.obj < t.numObjects && k.obj != t.corpse)
                   || (k.Body? && 0 <= k.mon < t.numMons)
  {
    if o.otyp == t.statue && k.Monster? && 0 <= k.mon < t.numMons {
      WordDrawn([k.mon], 0, t.numMons);
      assert DreamtKind(t, Words([k.mon]), 0, o) == k;
    }
    if o.otyp != t.statue && k.Object? && 1 <= k.obj < t.numObjects && k.obj != t.corpse {
      WordDrawn([k.obj - 1], 0, t.numObjects - 1);
      assert DreamtKind(t, Words([k.obj - 1]), 0, o) == k;
    }
    if o.otyp != t.statue && k.Body? && 0 <= k.mon < t.numMons {
      var words := [t.corpse - 1, k.mon];
      WordDrawn(words, 0, t.numObjects - 1);
      WordDrawn(words, 1, t.numMons);
      assert DreamtKind(t, Words(words), 0, o) == k;
    }
  }

  /** A dream takes one word of the generator, and a second one to choose whose body
      a dreamt corpse is. */
  lemma DreamCost(t: Tables, words: seq<nat>, o: Obj)
    requires t.Valid()
    ensures DreamtState(t, Words(words), 0, o) == if DreamtKind(t, Words(words), 0, o).Body? then 2 else 1
  {
  }

  /** Every real trap is seen with some generator, and reads back as itself. */
  lemma EveryTrapDreamt(t: Tables, trap: nat) returns (next: nat -> (nat, nat))
    requires t.NonEmpty() && 1 <= trap < TRAPNUM
    ensures t.ToTrap(TrapToGlyph(t, Draw(next, 0, TRAPNUM - 1) + 1)) == trap
  {
    next := Words([trap - 1]);
    WordDrawn([trap - 1], 0, TRAPNUM - 1);
    TrapGlyphs(t, TrapToGlyph(t, trap));
  }
}
