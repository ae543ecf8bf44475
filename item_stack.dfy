/**
 * The host's item stack, as far as the helpers use it: whether the stack is
 * empty, and the compound tag it may carry, which is created on demand.
 */
module ItemStacks {
  import opened Wrappers
  import opened Nbt

  /**
   * `ItemStack.TooltipSection`: the tooltip sections that the "HideFlags"
   * entry can hide, in declaration order.
   */
  datatype TooltipSection =
    | Enchantments | Modifiers | Unbreakable | CanDestroy | CanPlace | Additional | Dye

  /** `TooltipSection.values()`. */
  const AllSections: seq<TooltipSection> :=
    [Enchantments, Modifiers, Unbreakable, CanDestroy, CanPlace, Additional, Dye]

  /** `TooltipSection.getFlag()`: bit `ordinal()` of the mask. */
  function Mask(section: TooltipSection): (m: bv32)
    ensures m & 0x7F == m
  {
    match section
    case Enchantments => 0x01
    case Modifiers => 0x02
    case Unbreakable => 0x04
    case CanDestroy => 0x08
    case CanPlace => 0x10
    case Additional => 0x20
    case Dye => 0x40
  }

  /** Each mask is a single bit. */
  lemma MaskIsSingleBit(s: TooltipSection)
    ensures Mask(s) != 0 && Mask(s) & (Mask(s) - 1) == 0
  {
  }

  /** Every section is listed by `values()`, and no two sections share a bit. */
  lemma MasksDistinct(s: TooltipSection, t: TooltipSection)
    ensures s in AllSections
    ensures Mask(s) & Mask(t) != 0 <==> s == t
  {
  }

  /** `ItemStack.getSubTag(key)`: the compound entry `key` of the stack's tag, if there is one. */
  function SubTag(tag: Option<Tag>, key: string): (sub: Option<Tag>)
    ensures sub.Some? <==> tag.Some? && Contains(tag.value, key, COMPOUND)
    ensures sub.Some? ==> Compound(sub.value) == tag.value[key]
  {
    if tag.Some? && Contains(tag.value, key, COMPOUND) then Some(tag.value[key].entries) else None
  }

  class ItemStack {
    /** `isEmpty()`: no item, or a count of zero; the helpers never change it. */
    var empty: bool
    /** The stack's tag; `None` when the stack carries none. */
    var tag: Option<Tag>

    constructor (empty: bool, tag: Option<Tag>)
      ensures this.empty == empty && this.tag == tag
    {
      this.empty := empty;
      this.tag := tag;
    }

    /** `getOrCreateTag()`: attaches an empty tag when there is none, and gives the tag. */
    method GetOrCreateTag() returns (t: Tag)
      modifies this
      ensures empty == old(empty)
      ensures t == old(tag).GetOr(map[])
      ensures tag == Some(t)
    {
      if tag.None? {
        tag := Some(map[]);
      }
      t := tag.value;
    }

    /**
     * `getOrCreateSubTag(key)`: the compound entry `key`; when the tag lacks
     * one (or holds something else under `key`), a new empty compound is put
     * there first, creating the tag if need be.
     */
    method GetOrCreateSubTag(key: string) returns (sub: Tag)
      modifies this
      ensures empty == old(empty)
      ensures sub == GetCompound(old(tag).GetOr(map[]), key)
      ensures tag == Some(old(tag).GetOr(map[])[key := Compound(sub)])
    {
      var t := GetOrCreateTag();
      if Contains(t, key, COMPOUND) {
        sub := t[key].entries;
        assert t[key := Compound(sub)] == t;
      } else {
        sub := map[];
        tag := Some(t[key := Compound(sub)]);
      }
    }
  }
}
