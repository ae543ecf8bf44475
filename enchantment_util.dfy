/**
 * The enchantment helpers of ItemStackUtil: `removeEnchantments`,
 * `addEnchantments` and `addEnchantment`. Each edits the stack's tag in place
 * and hands the same stack back.
 */
module EnchantmentUtil {
  import opened Wrappers
  import opened Nbt
  import opened ItemStacks


  /** An enchantment, named by its registry id. */
  type Ench = string

  /**
   * The enchantment-to-level map that `EnchantmentHelper.get` reads from a
   * tag. The host's own list format is not part of this model: here the
   * "Enchantments" entry is a compound from enchantment id to an int level.
   * A missing tag or entry reads as the empty map.
   */
  function StoredEnchantments(tag: Option<Tag>): (levels: map<Ench, Int32>)
    ensures levels != map[] ==> tag.Some? && Contains(tag.value, "Enchantments", COMPOUND)
    ensures forall e | e in levels ::
      tag.Some? && "Enchantments" in tag.value && tag.value["Enchantments"].Compound?
      && e in tag.value["Enchantments"].entries && tag.value["Enchantments"].entries[e] == Int(levels[e])
  {
    if tag.Some? && Contains(tag.value, "Enchantments", COMPOUND) then
      var entries := tag.value["Enchantments"].entries;
      map e | e in entries && entries[e].Int? :: entries[e].n
    else
      map[]
  }

  /**
   * `EnchantmentHelper.set`: writes the map as the "Enchantments" entry,
   * creating the tag if the stack has none.
   */
  function WithEnchantments(tag: Option<Tag>, levels: map<Ench, Int32>): (t: Tag)
    ensures Contains(t, "Enchantments", COMPOUND)
    ensures t - {"Enchantments"} == tag.GetOr(map[]) - {"Enchantments"}
  {
    tag.GetOr(map[])["Enchantments" := Compound(map e | e in levels :: Int(levels[e]))]
  }

  /** What `WithEnchantments` writes is what `StoredEnchantments` reads back, and no other entry moves. */
  lemma EnchantmentsRoundTrip(tag: Option<Tag>, levels: map<Ench, Int32>)
    ensures StoredEnchantments(Some(WithEnchantments(tag, levels))) == levels
    ensures WithEnchantments(tag, levels) - {"Enchantments"} == tag.GetOr(map[]) - {"Enchantments"}
  {
    var entries := map e | e in levels :: Int(levels[e]);
    assert WithEnchantments(tag, levels)["Enchantments"].entries == entries;
    assert StoredEnchantments(Some(WithEnchantments(tag, levels))) == map e | e in entries && entries[e].Int? :: entries[e].n;
  }

  /** The tag after `addEnchantments(stack, enchantments)`; `None` stands for a null map. */
  function EnchantmentsAdded(tag: Option<Tag>, enchantments: Option<map<Ench, Int32>>): (r: Option<Tag>)
    ensures enchantments.None? || |enchantments.value| == 0 ==> r == tag
    ensures enchantments.Some? && |enchantments.value| != 0 ==>
      r.Some? && Contains(r.value, "Enchantments", COMPOUND)
      && r.value - {"Enchantments"} == tag.GetOr(map[]) - {"Enchantments"}
  {
    if enchantments.None? || |enchantments.value| == 0 then tag
    else Some(WithEnchantments(tag, StoredEnchantments(tag) + enchantments.value))
  }

  /**
   * `addEnchantments` overlays the new levels on the stored ones: a key in the
   * new map takes its new level, every other stored key keeps its level, and
   * no entry but "Enchantments" changes. A null or empty map changes nothing.
   */
  lemma AddEnchantmentsMerges(tag: Option<Tag>, enchantments: Option<map<Ench, Int32>>)
    ensures enchantments.None? || |enchantments.value| == 0 ==> EnchantmentsAdded(tag, enchantments) == tag
    ensures StoredEnchantments(EnchantmentsAdded(tag, enchantments)) == StoredEnchantments(tag) + enchantments.GetOr(map[])
    ensures EnchantmentsAdded(tag, enchantments).GetOr(map[]) - {"Enchantments"} == tag.GetOr(map[]) - {"Enchantments"}
  {
    if enchantments.Some? && |enchantments.value| != 0 {
      EnchantmentsRoundTrip(tag, StoredEnchantments(tag) + enchantments.value);
    } else {
      assert StoredEnchantments(tag) + map[] == StoredEnchantments(tag);
    }
  }

  /** Two `addEnchantments` in a row: the later map wins on every key it holds. */
  lemma AddEnchantmentsLastWins(tag: Option<Tag>, first: map<Ench, Int32>, second: map<Ench, Int32>)
    ensures var r := StoredEnchantments(EnchantmentsAdded(EnchantmentsAdded(tag, Some(first)), Some(second)));
      && r == StoredEnchantments(tag) + first + second
      && (forall e | e in second :: e in r && r[e] == second[e])
      && (forall e | e in first && e !in second :: e in r && r[e] == first[e])
  {
    AddEnchantmentsMerges(tag, Some(first));
    AddEnchantmentsMerges(EnchantmentsAdded(tag, Some(first)), Some(second));
  }

  /** `removeEnchantments`: deletes the "Enchantments" entry; a stack without a tag is left alone. */
  method RemoveEnchantments(stack: ItemStack) returns (same: ItemStack)
    modifies stack
    ensures same == stack && stack.empty == old(stack.empty)
    ensures old(stack.tag).None? ==> stack.tag == old(stack.tag)
    ensures old(stack.tag).Some? ==> stack.tag == Some(old(stack.tag).value - {"Enchantments"})
    ensures StoredEnchantments(stack.tag) == map[]
  {
    same := stack;
    var tag := stack.tag;
    if tag.None? {
      return;
    }
    stack.tag := Some(tag.value - {"Enchantments"});
  }

  /** `addEnchantments`: merges `enchantments` (None for a null map) over the stored levels. */
  method AddEnchantments(stack: ItemStack, enchantments: Option<map<Ench, Int32>>) returns (same: ItemStack)
    modifies stack
    ensures same == stack && stack.empty == old(stack.empty)
    ensures stack.tag == EnchantmentsAdded(old(stack.tag), enchantments)
    ensures StoredEnchantments(stack.tag) == old(StoredEnchantments(stack.tag)) + enchantments.GetOr(map[])
  {
    same := stack;
    AddEnchantmentsMerges(stack.tag, enchantments);
    if enchantments.None? || |enchantments.value| == 0 {
      return;
    }
    var levels := StoredEnchantments(stack.tag);
    levels := levels + enchantments.value;
    stack.tag := Some(WithEnchantments(stack.tag, levels));
  }

  /** `addEnchantment`: `addEnchantments` with the one-entry map `{enchantment: level}`. */
  method AddEnchantment(stack: ItemStack, enchantment: Ench, level: Int32) returns (same: ItemStack)
    modifies stack
    ensures same == stack && stack.empty == old(stack.empty)
    ensures stack.tag == EnchantmentsAdded(old(stack.tag), Some(map[enchantment := level]))
    ensures StoredEnchantments(stack.tag) == old(StoredEnchantments(stack.tag))[enchantment := level]
  {
    same := AddEnchantments(stack, Some(map[enchantment := level]));
  }
}
