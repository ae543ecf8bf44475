/**
 * The tooltip hide-flag helpers of ItemStackUtil: the "HideFlags" entry is a
 * 32-bit mask with one bit per tooltip section. `getHiddenTooltipSections`
 * decodes it, `evalHideFlags` encodes a set of sections, and the three writers
 * store, OR in, or clear the bits of a set.
 */
module HideFlagsUtil {
  import opened Wrappers
  import opened Nbt
  import opened ItemStacks


  /** The mask of `section` when it is among `sections`, otherwise 0. */
  function MaskIfIn(section: TooltipSection, sections: set<TooltipSection>): bv32
  {
    if section in sections then Mask(section) else 0
  }

  /** The value `evalHideFlags` computes: the OR of the masks of the given sections. */
  function FlagsOf(sections: set<TooltipSection>): (flags: bv32)
    ensures sections == {} ==> flags == 0
  {
    MaskIfIn(Enchantments, sections) | MaskIfIn(Modifiers, sections) | MaskIfIn(Unbreakable, sections)
    | MaskIfIn(CanDestroy, sections) | MaskIfIn(CanPlace, sections) | MaskIfIn(Additional, sections)
    | MaskIfIn(Dye, sections)
  }

  /** The seven low bits, one per flag, as a mask. */
  function SevenBits(e: bool, m: bool, u: bool, d: bool, p: bool, a: bool, y: bool): bv32
  {
    (if e then 0x01 else 0) | (if m then 0x02 else 0) | (if u then 0x04 else 0) | (if d then 0x08 else 0)
    | (if p then 0x10 else 0) | (if a then 0x20 else 0) | (if y then 0x40 else 0)
  }

  /** Each of the seven bits is set exactly when its flag is chosen, and no higher bit is. */
  lemma SevenBitsSet(e: bool, m: bool, u: bool, d: bool, p: bool, a: bool, y: bool)
    ensures var f := SevenBits(e, m, u, d, p, a, y);
      && (f & 0x01 != 0 <==> e) && (f & 0x02 != 0 <==> m) && (f & 0x04 != 0 <==> u) && (f & 0x08 != 0 <==> d)
      && (f & 0x10 != 0 <==> p) && (f & 0x20 != 0 <==> a) && (f & 0x40 != 0 <==> y)
      && f & 0x7F == f
  {
  }

  /** Bit `Mask(t)` of `FlagsOf(sections)` is set iff `t` is in `sections`, and no bit beyond the seven is. */
  lemma FlagsOfBits(sections: set<TooltipSection>, t: TooltipSection)
    ensures FlagsOf(sections) & Mask(t) != 0 <==> t in sections
    ensures FlagsOf(sections) & 0x7F == FlagsOf(sections)
  {
    var e, m, u, d := Enchantments in sections, Modifiers in sections, Unbreakable in sections, CanDestroy in sections;
    var p, a, y := CanPlace in sections, Additional in sections, Dye in sections;
    assert FlagsOf(sections) == SevenBits(e, m, u, d, p, a, y);
    SevenBitsSet(e, m, u, d, p, a, y);
  }

  /** A bit of an OR is set exactly when it is set in either operand. */
  lemma OrBit(a: bv32, b: bv32, c: bv32)
    ensures (a | b) & c != 0 <==> a & c != 0 || b & c != 0
  {
  }

  /** A value within the seven bits is determined by which sections' bits it has. */
  lemma FlagsDetermined(flags: bv32, sections: set<TooltipSection>)
    requires flags & 0x7F == flags
    requires forall t :: flags & Mask(t) != 0 <==> t in sections
    ensures flags == FlagsOf(sections)
  {
    assert flags & Mask(Enchantments) != 0 <==> Enchantments in sections;
    assert flags & Mask(Modifiers) != 0 <==> Modifiers in sections;
    assert flags & Mask(Unbreakable) != 0 <==> Unbreakable in sections;
    assert flags & Mask(CanDestroy) != 0 <==> CanDestroy in sections;
    assert flags & Mask(CanPlace) != 0 <==> CanPlace in sections;
    assert flags & Mask(Additional) != 0 <==> Additional in sections;
    assert flags & Mask(Dye) != 0 <==> Dye in sections;
  }

  /** Adding one section ORs in its mask, so the OR does not depend on the order sections are visited in. */
  lemma FlagsOfInsert(sections: set<TooltipSection>, f: TooltipSection)
    ensures FlagsOf(sections + {f}) == FlagsOf(sections) | Mask(f)
  {
    var flags := FlagsOf(sections) | Mask(f);
    forall t
      ensures flags & Mask(t) != 0 <==> t in sections + {f}
    {
      FlagsOfBits(sections, t);
      MasksDistinct(f, t);
      OrBit(FlagsOf(sections), Mask(f), Mask(t));
    }
    FlagsOfBits(sections, f);
    FlagsDetermined(flags, sections + {f});
  }

  /**
   * `evalHideFlags`: the OR of the masks of the sections in the set, whatever
   * the order they are visited in; the empty set gives 0.
   */
  method EvalHideFlags(hideFlags: set<TooltipSection>) returns (ret: bv32)
    ensures ret == FlagsOf(hideFlags)
    ensures hideFlags == {} ==> ret == 0
  {
    ret := 0;
    var rest := hideFlags;
    assert hideFlags - rest == {};
    while rest != {}
      invariant rest <= hideFlags
      invariant ret == FlagsOf(hideFlags - rest)
      decreases |rest|
    {
      var flag :| flag in rest;
      FlagsOfInsert(hideFlags - rest, flag);
      assert hideFlags - (rest - {flag}) == (hideFlags - rest) + {flag};
      ret := ret | Mask(flag);
      rest := rest - {flag};
    }
    assert hideFlags - rest == hideFlags;
  }

  /** The stored "HideFlags" bits that hide/show start from: a numeric entry's bits, otherwise 0. */
  function ExistingHideFlags(t: Tag): (flags: bv32)
    ensures !Contains(t, "HideFlags", NUMBER) ==> flags == 0
  {
    if Contains(t, "HideFlags", NUMBER) then ToBits(GetInt(t, "HideFlags")) else 0
  }

  /** Storing bits with `putInt` and reading them back gives the same bits. */
  lemma PutHideFlagsRoundTrip(t: Tag, flags: bv32)
    ensures ExistingHideFlags(t["HideFlags" := Int(FromBits(flags))]) == flags
  {
    BitsRoundTrip(flags);
  }

  /**
   * The decode test as written: the sections whose mask covers EVERY bit of
   * the stored value, i.e. `(flags & mask) == flags`.
   */
  function SectionsMatching(flags: bv32): (r: set<TooltipSection>)
    ensures forall s :: s in r <==> Covers(flags, s)
  {
    set s | s in AllSections && Covers(flags, s)
  }

  /** The per-section test of `getHiddenTooltipSections` as written. */
  predicate Covers(flags: bv32, s: TooltipSection)
    ensures Covers(flags, s) <==> flags & !Mask(s) == 0
  {
    flags & Mask(s) == flags
  }

  /**
   * What the decode test as written reports: every section for a stored 0,
   * just that section for a single section's mask, and nothing for any other
   * value, such as two sections hidden at once.
   */
  lemma SectionsMatchingCases(flags: bv32)
    ensures flags == 0 ==> SectionsMatching(flags) == set s | s in AllSections
    ensures forall t :: flags == Mask(t) ==> SectionsMatching(flags) == {t}
    ensures flags != 0 && (forall t :: flags != Mask(t)) ==> SectionsMatching(flags) == {}
  {
    forall t, s | flags == Mask(t)
      ensures s in SectionsMatching(flags) <==> s == t
    {
      MasksDistinct(s, t);
    }
  }

  /** Hiding Enchantments and Modifiers stores 3, which the decode test as written reads back as no section. */
  lemma TwoHiddenSectionsReadAsNone()
    ensures FlagsOf({Enchantments, Modifiers}) == 3
    ensures SectionsMatching(3) == {}
  {
    var f := FlagsOf({Enchantments, Modifiers});
    FlagsOfBits({Enchantments, Modifiers}, Enchantments);
    FlagsOfBits({Enchantments, Modifiers}, Modifiers);
    FlagsOfBits({Enchantments, Modifiers}, Unbreakable);
    FlagsOfBits({Enchantments, Modifiers}, CanDestroy);
    FlagsOfBits({Enchantments, Modifiers}, CanPlace);
    FlagsOfBits({Enchantments, Modifiers}, Additional);
    FlagsOfBits({Enchantments, Modifiers}, Dye);
    SectionsMatchingCases(3);
  }

  /** The evidently intended decode: the sections whose bit is set in the stored value. */
  function HiddenSections(flags: bv32): (r: set<TooltipSection>)
    ensures forall s :: s in r <==> flags & Mask(s) != 0
  {
    set s | s in AllSections && flags & Mask(s) != 0
  }

  /** The intended decode inverts `evalHideFlags`: every set of sections reads back as itself. */
  lemma HiddenSectionsRoundTrip(sections: set<TooltipSection>)
    ensures HiddenSections(FlagsOf(sections)) == sections
  {
    forall s
      ensures s in HiddenSections(FlagsOf(sections)) <==> s in sections
    {
      FlagsOfBits(sections, s);
      MasksDistinct(s, s);
    }
  }

  /**
   * `getHiddenTooltipSections`: no tag, or no numeric "HideFlags", gives the
   * empty set; otherwise the sections that pass the test as written,
   * `(flags & mask) == flags`.
   */
  method GetHiddenTooltipSections(stack: ItemStack) returns (flagSet: set<TooltipSection>)
    ensures stack.tag.None? || !Contains(stack.tag.value, "HideFlags", NUMBER) ==> flagSet == {}
    ensures stack.tag.Some? && Contains(stack.tag.value, "HideFlags", NUMBER) ==>
      flagSet == SectionsMatching(ExistingHideFlags(stack.tag.value))
  {
    flagSet := {};
    var tag := stack.tag;
    if tag.None? || !Contains(tag.value, "HideFlags", NUMBER) {
      return;
    }
    var flags := ToBits(GetInt(tag.value, "HideFlags"));
    for i := 0 to |AllSections|
      invariant forall s :: s in flagSet <==> s in AllSections[..i] && Covers(flags, s)
    {
      assert AllSections[..i + 1] == AllSections[..i] + [AllSections[i]];
      if flags & Mask(AllSections[i]) == flags {
        flagSet := flagSet + {AllSections[i]};
      }
    }
    assert AllSections[..|AllSections|] == AllSections;
  }

  /** `setHiddenTooltipSections`: stores exactly `evalHideFlags(tooltipSections)`, creating the tag if need be. */
  method SetHiddenTooltipSections(stack: ItemStack, tooltipSections: set<TooltipSection>) returns (same: ItemStack)
    modifies stack
    ensures same == stack && stack.empty == old(stack.empty)
    ensures stack.tag == Some(old(stack.tag).GetOr(map[])["HideFlags" := Int(FromBits(FlagsOf(tooltipSections)))])
    ensures ExistingHideFlags(stack.tag.value) == FlagsOf(tooltipSections)
  {
    same := stack;
    var tag := stack.GetOrCreateTag();
    var flags := EvalHideFlags(tooltipSections);
    stack.tag := Some(tag["HideFlags" := Int(FromBits(flags))]);
    PutHideFlagsRoundTrip(tag, flags);
  }

  /** `hideTooltipSections`: ORs the sections' bits into the stored value (0 when missing or not numeric). */
  method HideTooltipSections(stack: ItemStack, tooltipSections: set<TooltipSection>) returns (same: ItemStack)
    modifies stack
    ensures same == stack && stack.empty == old(stack.empty)
    ensures var before := old(stack.tag).GetOr(map[]);
      stack.tag == Some(before["HideFlags" := Int(FromBits(ExistingHideFlags(before) | FlagsOf(tooltipSections)))])
    ensures ExistingHideFlags(stack.tag.value) == ExistingHideFlags(old(stack.tag).GetOr(map[])) | FlagsOf(tooltipSections)
  {
    same := stack;
    var tag := stack.GetOrCreateTag();
    var existingFlags := ExistingHideFlags(tag);
    var flags := EvalHideFlags(tooltipSections);
    stack.tag := Some(tag["HideFlags" := Int(FromBits(existingFlags | flags))]);
    PutHideFlagsRoundTrip(tag, existingFlags | flags);
  }

  /** `showTooltipSections`: clears the sections' bits in the stored value (0 when missing or not numeric). */
  method ShowTooltipSections(stack: ItemStack, tooltipSections: set<TooltipSection>) returns (same: ItemStack)
    modifies stack
    ensures same == stack && stack.empty == old(stack.empty)
    ensures var before := old(stack.tag).GetOr(map[]);
      stack.tag == Some(before["HideFlags" := Int(FromBits(ExistingHideFlags(before) & !FlagsOf(tooltipSections)))])
    ensures ExistingHideFlags(stack.tag.value) == ExistingHideFlags(old(stack.tag).GetOr(map[])) & !FlagsOf(tooltipSections)
  {
    same := stack;
    var tag := stack.GetOrCreateTag();
    var existingFlags := ExistingHideFlags(tag);
    var flags := EvalHideFlags(tooltipSections);
    stack.tag := Some(tag["HideFlags" := Int(FromBits(existingFlags & !flags))]);
    PutHideFlagsRoundTrip(tag, existingFlags & !flags);
  }

  /** A single-bit mask that meets `f` lies wholly inside `f`. */
  lemma SingleBitInside(f: bv32, m: bv32)
    requires m != 0 && m & (m - 1) == 0
    requires f & m != 0
    ensures f & m == m
  {
  }

  /** Bits of `m` inside `f`: OR sets them, AND-NOT clears them. */
  lemma OrAndNotInside(flags: bv32, f: bv32, m: bv32)
    requires f & m == m
    ensures (flags | f) & m == m
    ensures (flags & !f) & m == 0
  {
  }

  /** Bits of `m` outside `f`: OR and AND-NOT keep them as they were. */
  lemma OrAndNotOutside(flags: bv32, f: bv32, m: bv32)
    requires f & m == 0
    ensures (flags | f) & m == flags & m
    ensures (flags & !f) & m == flags & m
  {
  }

  /** Clearing bits after setting the same bits forgets that they were set. */
  lemma OrThenAndNot(flags: bv32, f: bv32)
    ensures (flags | f) & !f == flags & !f
  {
  }

  /** Hiding sets the bit of every chosen section and keeps the bits of the others. */
  lemma HideBits(flags: bv32, sections: set<TooltipSection>, t: TooltipSection)
    ensures (flags | FlagsOf(sections)) & Mask(t) == if t in sections then Mask(t) else flags & Mask(t)
  {
    var f, m := FlagsOf(sections), Mask(t);
    FlagsOfBits(sections, t);
    MaskIsSingleBit(t);
    if t in sections {
      SingleBitInside(f, m);
      OrAndNotInside(flags, f, m);
    } else {
      OrAndNotOutside(flags, f, m);
    }
  }

  /** Showing clears the bit of every chosen section and keeps the bits of the others. */
  lemma ShowBits(flags: bv32, sections: set<TooltipSection>, t: TooltipSection)
    ensures (flags & !FlagsOf(sections)) & Mask(t) == if t in sections then 0 else flags & Mask(t)
  {
    var f, m := FlagsOf(sections), Mask(t);
    FlagsOfBits(sections, t);
    MaskIsSingleBit(t);
    if t in sections {
      SingleBitInside(f, m);
      OrAndNotInside(flags, f, m);
    } else {
      OrAndNotOutside(flags, f, m);
    }
  }

  /** Showing sections right after hiding them leaves what showing them alone would leave. */
  lemma HideThenShow(flags: bv32, sections: set<TooltipSection>)
    ensures (flags | FlagsOf(sections)) & !FlagsOf(sections) == flags & !FlagsOf(sections)
  {
    OrThenAndNot(flags, FlagsOf(sections));
  }
}
