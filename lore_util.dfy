/**
 * The lore helpers of ItemStackUtil: `getLore`, `setLore` and `addLore`, and
 * the private `getLoreListTag`, `getOrCreateLoreListTag` and
 * `addToLoreListTag` behind them. Lore is the "Lore" list of serialised text
 * lines inside the tag's "display" compound.
 */
module LoreUtil {
  import opened Wrappers
  import opened Nbt
  import opened Texts
  import opened ItemStacks


  /** Every element is a string tag (a list tag of element type STRING, or empty). */
  predicate IsStringList(items: seq<Value>)
  {
    forall i | 0 <= i < |items| :: items[i].Str?
  }

  /** The tag holds a "display" compound with a list under "Lore". */
  predicate HasLoreList(tag: Option<Tag>)
  {
    SubTag(tag, "display").Some? && Contains(SubTag(tag, "display").value, "Lore", LIST)
  }

  /**
   * The stored "Lore" list holds something other than strings, so that
   * `getList("Lore", STRING)` hands back a new, detached empty list instead.
   */
  predicate LoreDetached(tag: Option<Tag>)
  {
    HasLoreList(tag) && !IsStringList(SubTag(tag, "display").value["Lore"].items)
  }

  /**
   * The lore lines stored in a tag, as the helpers see them through
   * `getList("Lore", STRING)`: the "display"/"Lore" list when it is a string
   * list, and empty otherwise.
   */
  function StoredLore(tag: Option<Tag>): (items: seq<Value>)
    ensures IsStringList(items)
    ensures !HasLoreList(tag) || LoreDetached(tag) ==> items == []
  {
    if HasLoreList(tag) && !LoreDetached(tag) then SubTag(tag, "display").value["Lore"].items else []
  }

  /** Each line serialised with `toJson` and wrapped as a string tag. */
  function EncodeLore<Text>(codec: TextCodec<Text>, lines: seq<Text>): (items: seq<Value>)
    ensures |items| == |lines| && IsStringList(items)
    ensures forall i | 0 <= i < |lines| :: items[i] == Str(codec.toJson(lines[i]))
  {
    seq(|lines|, i requires 0 <= i < |lines| => Str(codec.toJson(lines[i])))
  }

  /** Each string tag parsed back with `fromJson`. */
  function DecodeLore<Text>(codec: TextCodec<Text>, items: seq<Value>): (lines: seq<Text>)
    requires IsStringList(items)
    ensures |lines| == |items|
    ensures forall i | 0 <= i < |items| :: lines[i] == codec.fromJson(items[i].s)
  {
    seq(|items|, i requires 0 <= i < |items| => codec.fromJson(items[i].s))
  }

  /** When the text codec round-trips, decoding encoded lore gives the lines back. */
  lemma LoreRoundTrip<Text(!new)>(codec: TextCodec<Text>, lines: seq<Text>)
    requires RoundTrips(codec)
    ensures DecodeLore(codec, EncodeLore(codec, lines)) == lines
  {
    var back := DecodeLore(codec, EncodeLore(codec, lines));
    forall i | 0 <= i < |lines|
      ensures back[i] == lines[i]
    {
      assert back[i] == codec.fromJson(codec.toJson(lines[i]));
    }
  }

  /** `getLoreListTag`: `None` (null) for an empty stack or a tag without a "display"/"Lore" list. */
  function GetLoreListTag(stack: ItemStack): (list: Option<seq<Value>>)
    reads stack
    ensures list.None? <==> stack.empty || !HasLoreList(stack.tag)
    ensures list.Some? ==> list.value == StoredLore(stack.tag)
  {
    if stack.empty then None
    else
      var displayTag := SubTag(stack.tag, "display");
      if displayTag.None? || !Contains(displayTag.value, "Lore", LIST) then None
      else if IsStringList(displayTag.value["Lore"].items) then Some(displayTag.value["Lore"].items)
      else Some([])
  }

  /**
   * `getLore`: the stored lore lines, each parsed with `fromJson`, in order.
   * An empty stack, a missing "display" compound or a "display" without a
   * list under "Lore" give the empty sequence.
   */
  method GetLore<Text>(codec: TextCodec<Text>, stack: ItemStack) returns (lines: seq<Text>)
    ensures stack.empty || !HasLoreList(stack.tag) ==> lines == []
    ensures !stack.empty ==> |lines| == |StoredLore(stack.tag)|
    ensures !stack.empty ==>
      forall i | 0 <= i < |lines| :: lines[i] == codec.fromJson(StoredLore(stack.tag)[i].s)
  {
    var loreListTag := GetLoreListTag(stack);
    if loreListTag.None? {
      return [];
    }
    var items := loreListTag.value;
    lines := [];
    for i := 0 to |items|
      invariant |lines| == i
      invariant forall j | 0 <= j < i :: lines[j] == codec.fromJson(items[j].s)
    {
      lines := lines + [codec.fromJson(items[i].s)];
    }
  }

  /** The tag with its "display" compound (a new one if missing) holding `items` as "Lore". */
  function WithLore(t: Tag, items: seq<Value>): (r: Tag)
    ensures HasLoreList(Some(r)) && SubTag(Some(r), "display").value["Lore"] == List(items)
    ensures r - {"display"} == t - {"display"}
  {
    t["display" := Compound(GetCompound(t, "display")["Lore" := List(items)])]
  }

  /**
   * The tag after `addToLoreListTag(stack, lines, clear)` appends `items`.
   * Note the inverted flag: the stored lore is kept when `clear` is true
   * (`addLore`) and dropped when it is false (`setLore`). Appends to a
   * detached list are lost.
   */
  function LoreAdded(tag: Option<Tag>, items: seq<Value>, clear: bool): (r: Tag)
    ensures HasLoreList(Some(r))
    ensures LoreDetached(tag) ==> r == tag.value
  {
    if LoreDetached(tag) then tag.value
    else WithLore(tag.GetOr(map[]), (if clear then StoredLore(tag) else []) + items)
  }

  /**
   * Reading back the lore after `addToLoreListTag`: the kept lines followed by
   * the new ones, unless the stored list was detached; and whether it is
   * detached does not change.
   */
  lemma StoredLoreAfterAdd(tag: Option<Tag>, items: seq<Value>, clear: bool)
    requires IsStringList(items)
    ensures LoreDetached(Some(LoreAdded(tag, items, clear))) == LoreDetached(tag)
    ensures StoredLore(Some(LoreAdded(tag, items, clear))) ==
      if LoreDetached(tag) then [] else (if clear then StoredLore(tag) else []) + items
  {
    if !LoreDetached(tag) {
      var after := Some(LoreAdded(tag, items, clear));
      assert SubTag(after, "display").value["Lore"].items == (if clear then StoredLore(tag) else []) + items;
    }
  }

  /** `addToLoreListTag` touches only "Lore" inside "display" (and makes "display" a compound). */
  lemma LoreAddedFrame(tag: Option<Tag>, items: seq<Value>, clear: bool)
    ensures LoreAdded(tag, items, clear) - {"display"} == tag.GetOr(map[]) - {"display"}
    ensures SubTag(tag, "display").Some? ==>
      SubTag(Some(LoreAdded(tag, items, clear)), "display").value - {"Lore"} == SubTag(tag, "display").value - {"Lore"}
  {
  }

  /** `setLore` then `getLore` gives back exactly the lines, unless the stored list was detached. */
  lemma SetLoreRoundTrip<Text(!new)>(codec: TextCodec<Text>, tag: Option<Tag>, lines: seq<Text>)
    requires RoundTrips(codec)
    requires !LoreDetached(tag)
    ensures DecodeLore(codec, StoredLore(Some(LoreAdded(tag, EncodeLore(codec, lines), false)))) == lines
  {
    StoredLoreAfterAdd(tag, EncodeLore(codec, lines), false);
    assert [] + EncodeLore(codec, lines) == EncodeLore(codec, lines);
    LoreRoundTrip(codec, lines);
  }

  /** `addLore` grows the lore by the new lines and leaves the earlier lines as they were. */
  lemma AddLoreAppends<Text>(codec: TextCodec<Text>, tag: Option<Tag>, lines: seq<Text>)
    requires !LoreDetached(tag)
    ensures var after := StoredLore(Some(LoreAdded(tag, EncodeLore(codec, lines), true)));
      && |after| == |StoredLore(tag)| + |lines|
      && after[..|StoredLore(tag)|] == StoredLore(tag)
      && after[|StoredLore(tag)|..] == EncodeLore(codec, lines)
  {
    StoredLoreAfterAdd(tag, EncodeLore(codec, lines), true);
  }

  /** Encoding lines one batch after another is encoding them all at once. */
  lemma EncodeLoreAppend<Text>(codec: TextCodec<Text>, first: seq<Text>, second: seq<Text>)
    ensures EncodeLore(codec, first) + EncodeLore(codec, second) == EncodeLore(codec, first + second)
  {
    var joined := EncodeLore(codec, first) + EncodeLore(codec, second);
    forall i | 0 <= i < |first + second|
      ensures joined[i] == EncodeLore(codec, first + second)[i]
    {
      if i < |first| {
        assert joined[i] == Str(codec.toJson(first[i]));
      } else {
        assert joined[i] == Str(codec.toJson(second[i - |first|]));
      }
    }
  }

  /** `setLore(a)` then `addLore(b)` reads back as `a + b`. */
  lemma SetThenAddLore<Text(!new)>(codec: TextCodec<Text>, tag: Option<Tag>, first: seq<Text>, second: seq<Text>)
    requires RoundTrips(codec)
    requires !LoreDetached(tag)
    ensures var set1 := Some(LoreAdded(tag, EncodeLore(codec, first), false));
      DecodeLore(codec, StoredLore(Some(LoreAdded(set1, EncodeLore(codec, second), true)))) == first + second
  {
    var e1, e2 := EncodeLore(codec, first), EncodeLore(codec, second);
    var set1 := Some(LoreAdded(tag, e1, false));
    StoredLoreAfterAdd(tag, e1, false);
    assert StoredLore(set1) == e1 by {
      assert [] + e1 == e1;
    }
    StoredLoreAfterAdd(set1, e2, true);
    EncodeLoreAppend(codec, first, second);
    assert StoredLore(Some(LoreAdded(set1, e2, true))) == EncodeLore(codec, first + second);
    LoreRoundTrip(codec, first + second);
  }

  /**
   * `getOrCreateLoreListTag`: makes sure "display" is a compound holding a
   * "Lore" list, and clears a stored string list when `clear` is FALSE.
   * `attached` tells whether the list it hands back is the stored one.
   */
  method GetOrCreateLoreListTag(stack: ItemStack, clear: bool) returns (attached: bool)
    modifies stack
    ensures stack.empty == old(stack.empty)
    ensures attached == !LoreDetached(old(stack.tag))
    ensures stack.tag == Some(LoreAdded(old(stack.tag), [], clear))
  {
    ghost var before := stack.tag;
    ghost var base := before.GetOr(map[]);
    var displayTag := stack.GetOrCreateSubTag("display");
    if Contains(displayTag, "Lore", LIST) {
      assert SubTag(before, "display") == Some(displayTag);
      // getList("Lore", STRING) returns the stored list only when it holds strings
      attached := IsStringList(displayTag["Lore"].items);
      if !clear && attached {
        displayTag := displayTag["Lore" := List([])];
      }
      // clearing a detached list changes nothing stored
    } else {
      assert !HasLoreList(before);
      displayTag := displayTag["Lore" := List([])];
      attached := true;
    }
    stack.tag := Some(stack.tag.value["display" := Compound(displayTag)]);
    assert stack.tag.value == base["display" := Compound(displayTag)];
    if !attached {
      assert base["display" := Compound(displayTag)] == base;
    } else {
      ghost var items := (if clear then StoredLore(before) else []) + [];
      assert !LoreDetached(before);
      if clear && HasLoreList(before) {
        assert items == StoredLore(before);
        assert displayTag["Lore" := List(items)] == displayTag;
      } else {
        assert items == [];
      }
      assert displayTag == GetCompound(base, "display")["Lore" := List(items)];
    }
  }

  /** Setting the lore twice keeps only the second list. */
  lemma WithLoreTwice(t: Tag, first: seq<Value>, second: seq<Value>)
    ensures GetCompound(WithLore(t, first), "display") == GetCompound(t, "display")["Lore" := List(first)]
    ensures WithLore(WithLore(t, first), second) == WithLore(t, second)
  {
    assert GetCompound(t, "display")["Lore" := List(first)]["Lore" := List(second)]
      == GetCompound(t, "display")["Lore" := List(second)];
  }

  /** `addToLoreListTag`: appends each line, serialised, to the list `getOrCreateLoreListTag` gives. */
  method AddToLoreListTag<Text>(codec: TextCodec<Text>, stack: ItemStack, lines: seq<Text>, clear: bool)
    returns (same: ItemStack)
    modifies stack
    ensures same == stack && stack.empty == old(stack.empty)
    ensures stack.tag == Some(LoreAdded(old(stack.tag), EncodeLore(codec, lines), clear))
  {
    same := stack;
    var attached := GetOrCreateLoreListTag(stack, clear);
    assert EncodeLore(codec, lines[..0]) == [];
    for i := 0 to |lines|
      invariant stack.empty == old(stack.empty)
      invariant stack.tag == Some(LoreAdded(old(stack.tag), EncodeLore(codec, lines[..i]), clear))
    {
      ghost var line := Str(codec.toJson(lines[i]));
      assert EncodeLore(codec, lines[..i + 1]) == EncodeLore(codec, lines[..i]) + [line];
      if attached {
        ghost var base := old(stack.tag).GetOr(map[]);
        ghost var kept := if clear then StoredLore(old(stack.tag)) else [];
        WithLoreTwice(base, kept + EncodeLore(codec, lines[..i]), kept + EncodeLore(codec, lines[..i + 1]));
        var t := stack.tag.value;
        var displayTag := GetCompound(t, "display");
        var loreListTag := displayTag["Lore"].items;
        assert loreListTag + [line] == kept + EncodeLore(codec, lines[..i + 1]);
        stack.tag := Some(t["display" := Compound(displayTag["Lore" := List(loreListTag + [Str(codec.toJson(lines[i]))])])]);
      }
    }
    assert lines[..|lines|] == lines;
  }

  /** `setLore`: replaces the stored lore with `lines` (either overload). */
  method SetLore<Text>(codec: TextCodec<Text>, stack: ItemStack, lines: seq<Text>) returns (same: ItemStack)
    modifies stack
    ensures same == stack && stack.empty == old(stack.empty)
    ensures stack.tag == Some(LoreAdded(old(stack.tag), EncodeLore(codec, lines), false))
    ensures StoredLore(stack.tag) == if old(LoreDetached(stack.tag)) then [] else EncodeLore(codec, lines)
  {
    same := AddToLoreListTag(codec, stack, lines, false);
    StoredLoreAfterAdd(old(stack.tag), EncodeLore(codec, lines), false);
  }

  /** `addLore`: appends `lines` to the stored lore (either overload). */
  method AddLore<Text>(codec: TextCodec<Text>, stack: ItemStack, lines: seq<Text>) returns (same: ItemStack)
    modifies stack
    ensures same == stack && stack.empty == old(stack.empty)
    ensures stack.tag == Some(LoreAdded(old(stack.tag), EncodeLore(codec, lines), true))
    ensures StoredLore(stack.tag) == if old(LoreDetached(stack.tag)) then [] else old(StoredLore(stack.tag)) + EncodeLore(codec, lines)
  {
    same := AddToLoreListTag(codec, stack, lines, true);
    StoredLoreAfterAdd(old(stack.tag), EncodeLore(codec, lines), true);
  }
}
