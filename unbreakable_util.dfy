/**
 * The unbreakable-flag helpers of ItemStackUtil: `isUnbreakable` and
 * `setUnbreakable`, over the byte entry "Unbreakable".
 */
module UnbreakableUtil {
  import opened Wrappers
  import opened Nbt
  import opened ItemStacks


  /** `isUnbreakable`: the stack has a tag with a byte "Unbreakable" entry that is not 0. */
  function IsUnbreakable(stack: ItemStack): (r: bool)
    reads stack
    ensures r <==> stack.tag.Some? && "Unbreakable" in stack.tag.value
                   && stack.tag.value["Unbreakable"].Byte? && stack.tag.value["Unbreakable"].b != 0
  {
    stack.tag.Some? && Contains(stack.tag.value, "Unbreakable", BYTE) && GetBoolean(stack.tag.value, "Unbreakable")
  }

  /**
   * `setUnbreakable`: true stores the byte 1 (creating the tag if need be);
   * false removes the entry, and leaves a stack without a tag alone.
   */
  method SetUnbreakable(stack: ItemStack, unbreakable: bool) returns (same: ItemStack)
    modifies stack
    ensures same == stack && stack.empty == old(stack.empty)
    ensures unbreakable ==> stack.tag == Some(old(stack.tag).GetOr(map[])["Unbreakable" := Byte(1)])
    ensures !unbreakable && old(stack.tag).None? ==> stack.tag == old(stack.tag)
    ensures !unbreakable && old(stack.tag).Some? ==> stack.tag == Some(old(stack.tag).value - {"Unbreakable"})
    ensures IsUnbreakable(stack) == unbreakable
  {
    same := stack;
    if unbreakable {
      var tag := stack.GetOrCreateTag();
      stack.tag := Some(tag["Unbreakable" := Byte(1)]);
    } else {
      var tag := stack.tag;
      if tag.None? {
        return;
      }
      stack.tag := Some(tag.value - {"Unbreakable"});
    }
  }
}
