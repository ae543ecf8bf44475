# ItemStackUtil in Dafny

A model of `ItemStackUtil` from LionUtils, a helper library for Minecraft
mods. The class edits the NBT tag that an item stack carries. It has four
independent groups of helpers:

- **Enchantments** (`EnchantmentUtil`): `removeEnchantments`,
  `addEnchantments` and `addEnchantment` read and write the stack's
  enchantment-to-level map.
- **Lore** (`LoreUtil`): `getLore`, `setLore` and `addLore` read and write
  the "Lore" list inside the "display" compound. Each line is stored as a
  JSON string. The private `getLoreListTag`, `getOrCreateLoreListTag` and
  `addToLoreListTag` do the work.
- **Hidden tooltip sections** (`HideFlagsUtil`): a set of tooltip sections is
  encoded as the 32-bit "HideFlags" mask (`evalHideFlags`). That set is then
  stored (`setHiddenTooltipSections`), OR-ed in (`hideTooltipSections`) or
  cleared (`showTooltipSections`). The mask is decoded back by
  `getHiddenTooltipSections`.
- **Unbreakable flag** (`UnbreakableUtil`): `isUnbreakable` and
  `setUnbreakable` work on the "Unbreakable" byte.

Supporting modules:

- `Nbt` models the tag values the helpers touch: byte, int, string, list and
  compound. A compound tag is a `map<string, Value>`. The module also holds
  the reads of `CompoundTag` that the helpers use: `contains` with a type id,
  `getInt`, `getBoolean` and `getCompound`.
- `ItemStacks` models the host item stack as a class. Its two fields are
  `empty` and `tag`. The helpers reassign `tag`, which the host mutates in
  place. `ItemStacks` also holds `getOrCreateTag`, `getOrCreateSubTag` and the
  seven tooltip sections with their masks.
- `Texts` holds the JSON text codec. It is passed in as a parameter
  (`TextCodec`). `RoundTrips(codec)` states that parsing what `toJson` wrote
  gives the text back. The lore round-trip lemmas require that.

Each Java helper that changes the stack is a method that takes the stack
(an `ItemStack` object) and modifies its tag. Its contract gives the whole new tag in terms of a specification
function of the old tag. The lemmas then prove what those functions promise:
- write/read round trips
- which entries stay unchanged
- how two calls in a row combine

Two quirks of the code are kept as written:

- The lore `clear` flag is inverted. `getOrCreateLoreListTag` clears the
  stored list when `clear` is **false**. So `setLore` (which passes false)
  replaces the lore, and `addLore` (which passes true) appends to it.
- `getHiddenTooltipSections` reports a section when
  `(flags & mask) == flags`. It does not test `(flags & mask) != 0`. See
  "## Findings".

Since `0 & mask == 0`, a stored 0 passes the test at
`ItemStackUtil.java:161` for every section, so a stack with "HideFlags" = 0
reads back as hiding all seven sections
(`HideFlagsUtil.SectionsMatchingCases`).

## Model

| member | source | states |
|---|---|---|
| Nbt.GetInt | src/main/java/adudecalledleo/lionutils/item/ItemStackUtil.java:159 | `getInt` on a key with no numeric entry gives 0. |
| Nbt.BitsRoundTrip | src/main/java/adudecalledleo/lionutils/item/ItemStackUtil.java:194-196 | Storing a 32-bit mask with `putInt` and reading it with `getInt` gives back the same bits, including the sign bit. |
| Nbt.Contains | src/main/java/adudecalledleo/lionutils/item/ItemStackUtil.java:67 | `contains(key, type)` holds only for a key that is present. |
| Nbt.ContainsNumberOrByte | src/main/java/adudecalledleo/lionutils/item/ItemStackUtil.java:157 | `contains(key, NUMBER)` accepts exactly a byte or an int entry, and `contains(key, BYTE)` exactly a byte entry, as the tests at :157, :194, :209 and :222 rely on. |
| Nbt.GetBoolean | src/main/java/adudecalledleo/lionutils/item/ItemStackUtil.java:224 | `getBoolean` is true only for a byte entry; that the byte must be non-zero is stated by `UnbreakableUtil.IsUnbreakable`. |
| Nbt.GetCompound | src/main/java/adudecalledleo/lionutils/item/ItemStackUtil.java:89 | `getCompound` gives the stored compound when there is one, and an empty compound otherwise. |
| ItemStacks.Mask | src/main/java/adudecalledleo/lionutils/item/ItemStackUtil.java:160-161 | Every section's flag lies within the low seven bits. |
| ItemStacks.MaskIsSingleBit | src/main/java/adudecalledleo/lionutils/item/ItemStackUtil.java:160-161 | Every section's flag is exactly one bit. |
| ItemStacks.MasksDistinct | src/main/java/adudecalledleo/lionutils/item/ItemStackUtil.java:147 | `values()` lists every section, and two sections' flags share a bit exactly when the sections are the same. |
| ItemStacks.SubTag | src/main/java/adudecalledleo/lionutils/item/ItemStackUtil.java:66 | `getSubTag` gives a compound exactly when the tag holds a compound under the key, and then gives that compound. |
| ItemStacks.ItemStack.GetOrCreateTag | src/main/java/adudecalledleo/lionutils/item/ItemStackUtil.java:192 | It returns the existing tag, or attaches and returns an empty one. |
| ItemStacks.ItemStack.GetOrCreateSubTag | src/main/java/adudecalledleo/lionutils/item/ItemStackUtil.java:89 | It returns the compound under the key. If the key holds no compound, a new empty compound is put there first, creating the tag if needed. The rest of the tag is unchanged. |
| EnchantmentUtil.StoredEnchantments | src/main/java/adudecalledleo/lionutils/item/ItemStackUtil.java:46 | `EnchantmentHelper.get` reads only the int entries of an "Enchantments" compound, each with its stored level. A tag without one reads as no enchantments. |
| EnchantmentUtil.WithEnchantments | src/main/java/adudecalledleo/lionutils/item/ItemStackUtil.java:48 | `EnchantmentHelper.set` leaves an "Enchantments" compound in the tag and changes no other entry. |
| EnchantmentUtil.EnchantmentsAdded | src/main/java/adudecalledleo/lionutils/item/ItemStackUtil.java:43-50 | A null or empty map gives back the tag unchanged. Otherwise the result has an "Enchantments" compound and no other entry changes. |
| EnchantmentUtil.EnchantmentsRoundTrip | src/main/java/adudecalledleo/lionutils/item/ItemStackUtil.java:46-48 | Reading back the levels that `EnchantmentHelper.set` wrote gives the same map. Only the "Enchantments" entry of the tag changes. |
| EnchantmentUtil.AddEnchantmentsMerges | src/main/java/adudecalledleo/lionutils/item/ItemStackUtil.java:43-50 | A null or empty map leaves the tag unchanged. Otherwise the stored levels become the old levels overlaid with the new ones (`putAll`). Nothing but "Enchantments" changes. |
| EnchantmentUtil.AddEnchantmentsLastWins | src/main/java/adudecalledleo/lionutils/item/ItemStackUtil.java:43-50 | After two `addEnchantments` calls, every key of the later map has its later level. Keys only in the earlier map keep the earlier level. |
| EnchantmentUtil.RemoveEnchantments | src/main/java/adudecalledleo/lionutils/item/ItemStackUtil.java:29-35 | A stack without a tag is left alone. Otherwise exactly the "Enchantments" entry is removed, and the stack then reads as having no enchantments. |
| EnchantmentUtil.AddEnchantments | src/main/java/adudecalledleo/lionutils/item/ItemStackUtil.java:43-50 | The new tag is the merge stated by `AddEnchantmentsMerges`. The stored levels become the old ones overlaid with the given map. |
| EnchantmentUtil.AddEnchantment | src/main/java/adudecalledleo/lionutils/item/ItemStackUtil.java:59-61 | It is `addEnchantments` with the one-entry map, so the stored levels gain or replace that one enchantment. |
| LoreUtil.StoredLore | src/main/java/adudecalledleo/lionutils/item/ItemStackUtil.java:69 | `getList("Lore", STRING)` always yields string tags. It yields nothing when there is no lore list or when the stored list is not a string list. |
| LoreUtil.EncodeLore | src/main/java/adudecalledleo/lionutils/item/ItemStackUtil.java:102-103 | Line `i` is stored as the string tag of `toJson(line i)`, with one tag per line. |
| LoreUtil.DecodeLore | src/main/java/adudecalledleo/lionutils/item/ItemStackUtil.java:83-84 | Line `i` is `fromJson` of stored string `i`, with one line per tag. |
| LoreUtil.LoreRoundTrip | src/main/java/adudecalledleo/lionutils/item/ItemStackUtil.java:84-103 | If the text codec round-trips, decoding the encoded lines gives the lines back. |
| LoreUtil.EncodeLoreAppend | src/main/java/adudecalledleo/lionutils/item/ItemStackUtil.java:102-103 | Serialising lines batch after batch gives the same strings as serialising them all at once. |
| LoreUtil.GetLoreListTag | src/main/java/adudecalledleo/lionutils/item/ItemStackUtil.java:63-70 | It returns null exactly for an empty stack or a tag without a "display" compound holding a list under "Lore". Otherwise it returns the stored lore as `getList(..., STRING)` sees it. |
| LoreUtil.GetLore | src/main/java/adudecalledleo/lionutils/item/ItemStackUtil.java:77-86 | An empty stack or missing lore gives the empty list. Otherwise it gives one line per stored string, in order, each parsed with `fromJson`. |
| LoreUtil.WithLore | src/main/java/adudecalledleo/lionutils/item/ItemStackUtil.java:89-96 | After putting a list under "display"/"Lore", the tag holds exactly that list there, and no entry other than "display" changes. |
| LoreUtil.LoreAdded | src/main/java/adudecalledleo/lionutils/item/ItemStackUtil.java:88-105 | After `addToLoreListTag`, "display" always holds a "Lore" list. When the stored list was not a string list, the tag is unchanged. |
| LoreUtil.StoredLoreAfterAdd | src/main/java/adudecalledleo/lionutils/item/ItemStackUtil.java:88-105 | After `addToLoreListTag`, the lore reads as the kept lines followed by the new ones. The kept lines are all lines when `clear` is true and none when it is false. If the stored list was not a string list, the writes are lost. |
| LoreUtil.LoreAddedFrame | src/main/java/adudecalledleo/lionutils/item/ItemStackUtil.java:88-105 | Writing lore changes no tag entry but "display", and no "display" entry but "Lore". |
| LoreUtil.SetLoreRoundTrip | src/main/java/adudecalledleo/lionutils/item/ItemStackUtil.java:113-115 | `getLore` after `setLore(lines)` gives exactly `lines`, provided the codec round-trips and no non-string "Lore" list was stored. |
| LoreUtil.AddLoreAppends | src/main/java/adudecalledleo/lionutils/item/ItemStackUtil.java:123-125 | When no non-string "Lore" list was stored, `addLore` keeps every earlier line in place and appends the new lines after them. |
| LoreUtil.SetThenAddLore | src/main/java/adudecalledleo/lionutils/item/ItemStackUtil.java:113-125 | When no non-string "Lore" list was stored, `setLore(a)` followed by `addLore(b)` reads back as `a + b`. |
| LoreUtil.WithLoreTwice | src/main/java/adudecalledleo/lionutils/item/ItemStackUtil.java:96-103 | After a lore list is put, "display" is the old "display" with only "Lore" replaced. Putting a second list equals putting only the second. |
| LoreUtil.GetOrCreateLoreListTag | src/main/java/adudecalledleo/lionutils/item/ItemStackUtil.java:88-98 | Afterwards "display" holds a "Lore" list. A stored string list is cleared when `clear` is false and kept when it is true. The list handed back is the stored one except when the stored list is not a string list. |
| LoreUtil.AddToLoreListTag | src/main/java/adudecalledleo/lionutils/item/ItemStackUtil.java:100-105 | The new tag is the one with the encoded lines appended, after the possible clear. |
| LoreUtil.SetLore | src/main/java/adudecalledleo/lionutils/item/ItemStackUtil.java:113-115 | This is `addToLoreListTag` with `clear` false. The lore afterwards is exactly the encoded lines. |
| LoreUtil.AddLore | src/main/java/adudecalledleo/lionutils/item/ItemStackUtil.java:123-125 | This is `addToLoreListTag` with `clear` true. The lore afterwards is the old lore followed by the encoded lines. |
| HideFlagsUtil.FlagsOfBits | src/main/java/adudecalledleo/lionutils/item/ItemStackUtil.java:167-172 | In the OR of the sections' flags, a section's bit is set exactly when the section is in the set. No bit above the seventh is set. |
| HideFlagsUtil.FlagsDetermined | src/main/java/adudecalledleo/lionutils/item/ItemStackUtil.java:167-172 | A mask within seven bits is the encoding of exactly the sections whose bits it has. |
| HideFlagsUtil.FlagsOf | src/main/java/adudecalledleo/lionutils/item/ItemStackUtil.java:167-172 | The empty set of sections encodes as 0. |
| HideFlagsUtil.FlagsOfInsert | src/main/java/adudecalledleo/lionutils/item/ItemStackUtil.java:169-170 | Adding a section ORs in its flag, so the result does not depend on the order the set is visited in. |
| HideFlagsUtil.EvalHideFlags | src/main/java/adudecalledleo/lionutils/item/ItemStackUtil.java:167-172 | The loop returns the OR of the flags of exactly the sections in the set. The empty set gives 0. |
| HideFlagsUtil.PutHideFlagsRoundTrip | src/main/java/adudecalledleo/lionutils/item/ItemStackUtil.java:194-196 | After `putInt("HideFlags", flags)`, the existing flags that hide/show read are `flags`. |
| HideFlagsUtil.ExistingHideFlags | src/main/java/adudecalledleo/lionutils/item/ItemStackUtil.java:193-195 | A missing or non-numeric "HideFlags" entry reads as 0. |
| HideFlagsUtil.Covers | src/main/java/adudecalledleo/lionutils/item/ItemStackUtil.java:161 | The test as written passes exactly when every set bit of the stored value lies in the section's flag. |
| HideFlagsUtil.SectionsMatching | src/main/java/adudecalledleo/lionutils/item/ItemStackUtil.java:160-163 | The decode as written reports exactly the sections that pass that test. |
| HideFlagsUtil.SectionsMatchingCases | src/main/java/adudecalledleo/lionutils/item/ItemStackUtil.java:160-163 | With the test as written, a stored 0 reports every section and one section's flag reports just that section. Any other value reports no section. |
| HideFlagsUtil.TwoHiddenSectionsReadAsNone | src/main/java/adudecalledleo/lionutils/item/ItemStackUtil.java:161 | Hiding Enchantments and Modifiers stores 3, which the test as written decodes as no hidden section. |
| HideFlagsUtil.HiddenSections | src/main/java/adudecalledleo/lionutils/item/ItemStackUtil.java:154-165 | The corrected decode reports exactly the sections whose bit is set in the stored value. |
| HideFlagsUtil.HiddenSectionsRoundTrip | src/main/java/adudecalledleo/lionutils/item/ItemStackUtil.java:154-172 | Decoding with `(flags & mask) != 0` inverts `evalHideFlags`: every set of sections reads back as itself. |
| HideFlagsUtil.GetHiddenTooltipSections | src/main/java/adudecalledleo/lionutils/item/ItemStackUtil.java:154-165 | No tag or no numeric "HideFlags" gives the empty set. Otherwise it gives the sections that pass the test as written. |
| HideFlagsUtil.SetHiddenTooltipSections | src/main/java/adudecalledleo/lionutils/item/ItemStackUtil.java:180-183 | "HideFlags" is overwritten with the encoding of the set, creating the tag if needed. Nothing else changes, and the stored flags read back as that encoding. |
| HideFlagsUtil.HideTooltipSections | src/main/java/adudecalledleo/lionutils/item/ItemStackUtil.java:191-198 | "HideFlags" becomes the existing flags OR the set's encoding. Missing or non-numeric existing flags count as 0. Nothing else changes. |
| HideFlagsUtil.ShowTooltipSections | src/main/java/adudecalledleo/lionutils/item/ItemStackUtil.java:206-213 | "HideFlags" becomes the existing flags AND NOT the set's encoding. Missing or non-numeric existing flags count as 0. Nothing else changes. |
| HideFlagsUtil.HideBits | src/main/java/adudecalledleo/lionutils/item/ItemStackUtil.java:191-198 | Hiding sets the bit of every chosen section and leaves every other section's bit as it was. |
| HideFlagsUtil.ShowBits | src/main/java/adudecalledleo/lionutils/item/ItemStackUtil.java:206-213 | Showing clears the bit of every chosen section and leaves every other section's bit as it was. |
| HideFlagsUtil.HideThenShow | src/main/java/adudecalledleo/lionutils/item/ItemStackUtil.java:191-213 | Showing sections right after hiding them gives what showing them alone gives: exactly those bits are cleared and the rest are kept. |
| UnbreakableUtil.IsUnbreakable | src/main/java/adudecalledleo/lionutils/item/ItemStackUtil.java:220-225 | True exactly when the tag holds a byte "Unbreakable" entry that is not 0. |
| UnbreakableUtil.SetUnbreakable | src/main/java/adudecalledleo/lionutils/item/ItemStackUtil.java:233-244 | True stores the byte 1, creating the tag if needed. False removes the entry and leaves a stack without a tag alone. Afterwards `isUnbreakable` reports the value just set. |

## Left out

- `VisibleBlockWithEntity` is not part of this model. It shares only the package with these helpers.
- Text serialisation: `Text.Serializer.toJson`/`fromJson` are a parameter (`TextCodec`), and their JSON format is not modelled. The lore round trips assume `RoundTrips(codec)`.
- EnchantmentUtil.StoredEnchantments: stands in for `EnchantmentHelper.get`/`set` with a compound from enchantment id to int level. The host's list-of-compounds format is not modelled. Neither are the registry lookup, the dropping of level-0 entries, the truncation of levels to a short, or the removal of the entry when the map is empty.
- NBT numeric types other than byte and int (short, long, float, double) are not modelled. `contains(key, NUMBER)` and `getInt` are modelled for byte and int entries only.
- The private constructor that rejects instantiation is not modelled, since the class has no state.
- Threading is not modelled. The helpers mutate the stack without synchronisation, and the model treats each call as atomic.
- The `Iterable<Text>` and `Text...` overloads of `setLore`/`addLore` are one method each, taking a `seq` of lines.
- `EnumSet` iteration order is not modelled: `evalHideFlags` visits the set in an arbitrary order, and `FlagsOfInsert` shows the result does not depend on it.
- The result `EnumSet` of `getHiddenTooltipSections` is a plain `set`, so its ordering by ordinal is not kept.
- Null arguments are not modelled, except the enchantment map of `addEnchantments`, which is an `Option`. A null stack throws in every helper. Null `lines` throw at :102. A null set of sections throws at :169, and in `setHiddenTooltipSections` that happens only after `getOrCreateTag` has attached a tag (:181).
- Nbt.GetBoolean: models `getBoolean` on byte entries only. The helpers call it only after `contains(key, BYTE)` (:222-224), so its narrowing of int entries is left out.
- Identity of the returned stack: every helper returns its argument (`same == stack`), and aliasing beyond that is not modelled.

## Findings

| source | as written | input that shows it | evidently intended | confidence | as-written member | corrected member |
|---|---|---|---|---|---|---|
| src/main/java/adudecalledleo/lionutils/item/ItemStackUtil.java:161 | a section is reported hidden when `(flags & flag) == flags` | "HideFlags" = 3, as stored by hiding Enchantments and Modifiers, decodes to no section; "HideFlags" = 0 decodes to all seven | report a section when `(flags & flag) != 0`, so that decoding inverts `evalHideFlags` | high, not executed | HideFlagsUtil.TwoHiddenSectionsReadAsNone | HideFlagsUtil.HiddenSectionsRoundTrip |

`HideFlagsUtil.GetHiddenTooltipSections` itself keeps the test as written,
because it models the method. The corrected decode `HideFlagsUtil.HiddenSections`
is proved to invert the encoding.
