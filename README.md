# Northern Roads landscape patcher, modelled in Dafny

This project models `RunPatch` of the Northern Roads patcher
(`NorthernRoadsPatcher/Program.cs`), a Synthesis patcher for Skyrim SE. The patcher copies
the landscape of every exterior cell that a "Northern Roads" plugin overrides into a
patch plugin. It works in two phases.

* **Scan.** For each landscape identity the link cache supplies its override contexts.
  The patcher walks them in order and stops at the first context whose plugin name
  contains "Northern Roads", ignoring case. It then follows that context's parent chain:
  cell, sub-block, block, worldspace. If any link is missing, the identity is skipped.
  Otherwise a `LandscapeItem` is queued. (`scan.dfy`, `mod_names.dfy`)
* **Apply.** The queue is drained in FIFO order. For each item the patcher:
  1. appends a master reference to the item's plugin;
  2. finds the worldspace by FormKey, or adds a copy of it with no blocks;
  3. finds the block by `(BlockNumberX, BlockNumberY)`; if there is none, it appends a
     new block that holds one new sub-block holding the cell;
  4. otherwise finds or creates the sub-block by its coordinates, removes the first cell
     with the same FormKey, if there is one, and appends a copy of the cell.

  The functions in `merge.dfy` specify this update; their lemmas carry the properties.
  `ReplaceCell` is described by `ReplaceCellSpec`, `ReplaceCellLeavesOnlyNew`,
  `ReplaceCellKeepsUnique` and `LookupReplaceCell`. `InsertIntoSubBlocks` is described by
  `InsertIntoSubBlocksShape`, `InsertIntoSubBlocksWellFormed` and `LookupInsertIntoSubBlocks`.
  `InsertIntoBlocks` is described by `InsertIntoBlocksShape`, `InsertIntoBlocksWellFormed` and
  `LookupInsertIntoBlocks`. `PatchWorldspaces` is described by `PatchWorldspacesShape`,
  `PatchWorldspacesWellFormed`, `PatchWorldspacesHoldsWorldspace`, `ApplyStoresCell` and
  `ApplyKeepsOtherCells`. `Patcher.ApplyAll` is described by `ApplyAllWellFormed` and
  `ApplyAllLastWriteWins`. The name test (`ModNames.ContainsIgnoreCase`,
  `ModNames.IsNorthernRoadsName`, `Scan.IsTarget`) is described by the `ModNames` lemmas.
  The class `PatchMod` in `patcher.dfy` performs the update in place.

Files:
- `records.dfy`: the records as datatypes.
  - Identities are `FormKey` and `ModKey`; coordinates are `(x, y)` pairs.
  - The child lists are `Worldspace.subCells`, `Block.items` and `SubBlock.items`.
  - Override contexts carry their typed parent chain.
  - The copy masks of `Program.cs:13-15` keep a record's own fields and empty its child list.
  - FormKeys are compared as Mutagen's `FormKey`/`ModKey` equality compares them: the id,
    the plugin type, and the plugin name ignoring case (`Records.Identity`). Worldspaces
    (line 97) and cells (line 116) are searched by that identity.
- `lists.dfy`: first-match search by key (`List.Find`, `FirstOrDefault`), removal at an
  index, key counting, sibling-key uniqueness; `FilterMap`, the in-order collection of
  optional results that the scan queue is built with.
- `mod_names.dfy`: ordinal case-insensitive substring test, with ASCII case folding.
- `scan.dfy`: target selection, parent-chain resolution, the scan loop.
- `merge.dfy`: the update of the worldspace tree by one item, and what it preserves.
- `patcher.dfy`: the patch plugin as a class, the apply loop and `RunPatch`.

The link cache is an input, `seq<seq<LandscapeContext>>`: one sequence of override
contexts per identity. "First" means first in the order the link cache returns them. The
model makes no claim about which priority that order starts from.

`Program.cs` does not do the following, and neither does the model:
- it picks no "winning" layer;
- it does no field-by-field overlay of cell attributes;
- it builds no transitive dependency closure of masters;
- it does not re-resolve the worldspace through the link cache;
- it raises no fatal error for an unresolvable worldspace;
- it does not keep one entry per cell identity across the whole worldspace. The search for an
  existing cell (line 116) looks only inside the item's sub-block. Two items with the same
  cell FormKey but different sub-block coordinates leave two copies (`SameCellTwoSubBlocks`).

What it does do: it copies the selected context's parent cell wholesale (line 104), and
it appends one master reference per item, without de-duplication (lines 90-95).

## Model

| member | source | states |
|---|---|---|
| `Lists.IndexOfKey` | NorthernRoadsPatcher/Program.cs:106-116 | the keyed `Find`/`FirstOrDefault`: the result is the index of the first element with the key, and None exactly when no element has it |
| `ModNames.IndexOf` | NorthernRoadsPatcher/Program.cs:59 | ordinal substring search: the first index where the phrase occurs, and None exactly when it occurs nowhere |
| `ModNames.ContainsIgnoresCase` | NorthernRoadsPatcher/Program.cs:59 | names that are equal up to case either both match or both fail |
| `ModNames.ContainsIgnoreCaseInfix` | NorthernRoadsPatcher/Program.cs:59 | a name containing the phrase anywhere, in any case, matches |
| `ModNames.ContainsIgnoreCaseSplit` | NorthernRoadsPatcher/Program.cs:59 | conversely, every matching name is some text, then a case variant of the phrase, then more text |
| `ModNames.ShortNameDoesNotMatch` | NorthernRoadsPatcher/Program.cs:59 | a name shorter than "Northern Roads" never matches |
| `ModNames.UpperCaseNameMatches` | NorthernRoadsPatcher/Program.cs:59 | example: "NORTHERN ROADS - Patches" matches |
| `Scan.FirstTarget` | NorthernRoadsPatcher/Program.cs:55-64 | the selected context is a Northern Roads context that no earlier context precedes as a match; None exactly when no context matches |
| `Scan.FirstTargetIgnoresLater` | NorthernRoadsPatcher/Program.cs:55-64 | once a match exists, appending further contexts, matching or not, does not change the selection |
| `Scan.FirstOfTwoTargets` | NorthernRoadsPatcher/Program.cs:55-64 | with contexts [A, B, C] where B and C both match, B is selected, not C |
| `Scan.SelectTarget` | NorthernRoadsPatcher/Program.cs:55-64 | the `for` loop with `break` computes exactly the first match |
| `Scan.ResolveItem` | NorthernRoadsPatcher/Program.cs:71-84 | an item results exactly when all four ancestors are present; its cell, sub-block, block and worldspace are the parent, grandparent, great-grandparent and great-great-grandparent of the selected context |
| `Scan.ItemFor` | NorthernRoadsPatcher/Program.cs:55-84 | an identity yields an item exactly when its first matching context has all four ancestors, and the item carries that context |
| `Scan.NoFallbackToLaterTarget` | NorthernRoadsPatcher/Program.cs:55-84 | when the first matching context's chain is broken, the identity yields nothing; a later matching context is never tried |
| `Scan.WorkItems` | NorthernRoadsPatcher/Program.cs:51-86 | the queue is no longer than the list of identities |
| `Scan.WorkItemsCons` | NorthernRoadsPatcher/Program.cs:51-86 | the queue is in identity order: the first identity's item, if any, comes before all the others |
| `Scan.WorkItemsSound` | NorthernRoadsPatcher/Program.cs:51-86 | every queued item is the item of some identity |
| `Scan.WorkItemsComplete` | NorthernRoadsPatcher/Program.cs:51-86 | every identity that yields an item has it queued |
| `Scan.WorkItemsWithoutTargets` | NorthernRoadsPatcher/Program.cs:66-69 | when no identity has a Northern Roads context, nothing is queued |
| `Scan.ScanLandscapes` | NorthernRoadsPatcher/Program.cs:51-86 | the scan loop, with its `continue` skips, builds exactly the queue `WorkItems` describes |
| `Merge.ReplaceCellSpec` | NorthernRoadsPatcher/Program.cs:116-121 | the new cell ends up last; its FormKey's count becomes 1 if it was 0 and is otherwise unchanged; the cells with other FormKeys are kept, in order |
| `Merge.ReplaceCellLeavesOnlyNew` | NorthernRoadsPatcher/Program.cs:116-121 | if at most one cell had the FormKey before, exactly one has it afterwards, and that cell is the new copy |
| `Merge.ReplaceCellKeepsUnique` | NorthernRoadsPatcher/Program.cs:116-121 | cell FormKeys that were unique in a sub-block stay unique |
| `Merge.InsertIntoSubBlocksWellFormed` | NorthernRoadsPatcher/Program.cs:109-121 | sub-block coordinates stay unique within a block, and cell FormKeys stay unique within each sub-block |
| `Merge.InsertIntoBlocksWellFormed` | NorthernRoadsPatcher/Program.cs:106-132 | block coordinates stay unique within a worldspace, and every level below stays well-formed |
| `Merge.PatchWorldspacesWellFormed` | NorthernRoadsPatcher/Program.cs:97-132 | applying one item keeps worldspace FormKeys, block and sub-block coordinates, and cell FormKeys unique among siblings |
| `Merge.PatchWorldspacesShape` | NorthernRoadsPatcher/Program.cs:97-102 | an existing worldspace with the FormKey is reused: same length, same FormKey and fields, its block list updated as `InsertIntoBlocks` says, no other worldspace touched; otherwise exactly one worldspace is appended, and it holds only the new block |
| `Merge.PatchWorldspacesHoldsWorldspace` | NorthernRoadsPatcher/Program.cs:97-102 | in a well-formed patch, the item's worldspace is present exactly once afterwards |
| `Merge.NewBlockShape` | NorthernRoadsPatcher/Program.cs:123-131 | a created block has the source block's coordinates and fields and exactly one sub-block, which holds exactly the cell |
| `Merge.InsertIntoBlocksShape` | NorthernRoadsPatcher/Program.cs:106-132 | with no block at the coordinates, exactly one block is appended and the others are unchanged; an existing block keeps its coordinates and fields, its sub-block list is updated as `InsertIntoSubBlocks` says, and no other block changes |
| `Merge.InsertIntoSubBlocksShape` | NorthernRoadsPatcher/Program.cs:109-121 | the sub-block found by its coordinates gets the cell by replacement; a missing sub-block is appended holding only the cell; no other sub-block changes |
| `Merge.LookupReplaceCell` | NorthernRoadsPatcher/Program.cs:116-121 | after replacement, a search for the new FormKey finds the new cell (when FormKeys were unique), and a search for any other FormKey finds what it found before |
| `Merge.LookupInsertIntoSubBlocks` | NorthernRoadsPatcher/Program.cs:109-121 | placing the cell is visible only at its sub-block and FormKey |
| `Merge.LookupInsertIntoBlocks` | NorthernRoadsPatcher/Program.cs:106-132 | placing the cell is visible only at its block, sub-block and FormKey |
| `Merge.ApplyStoresCell` | NorthernRoadsPatcher/Program.cs:97-132 | after an item is applied to a well-formed patch, searching along its worldspace, block, sub-block and FormKey finds its cell |
| `Merge.ApplyKeepsOtherCells` | NorthernRoadsPatcher/Program.cs:97-132 | applying an item changes the result of no search along any other path |
| `Patcher.PatchMod.Apply` | NorthernRoadsPatcher/Program.cs:90-132 | one apply iteration appends exactly one master reference naming the item's plugin, and updates the worldspaces as `PatchWorldspaces` specifies; on a well-formed patch the result is well-formed and holds the cell |
| `Patcher.MasterRefs` | NorthernRoadsPatcher/Program.cs:90-95 | one master reference per item, in queue order, each naming that item's plugin; duplicates are kept |
| `Patcher.ApplyAllWellFormed` | NorthernRoadsPatcher/Program.cs:88-133 | draining the whole queue keeps sibling keys unique at every level |
| `Patcher.ApplyAllLastWriteWins` | NorthernRoadsPatcher/Program.cs:88-133 | after the drain, each path finds the cell of the last queued item for that path, or what it found before if no item had that path |
| `Patcher.TwoCellsShareSubBlock` | NorthernRoadsPatcher/Program.cs:106-121 | two items with the same worldspace, block and sub-block but different cells leave both cells findable, under one sub-block |
| `Patcher.SameCellTwoSubBlocks` | NorthernRoadsPatcher/Program.cs:106-121 | two items with the same worldspace, block and cell FormKey but different sub-block coordinates leave both cells findable, one under each sub-block |
| `Patcher.RunPatch` | NorthernRoadsPatcher/Program.cs:45-134 | the master list grows by exactly `MasterRefs` of the scan's queue; the worldspaces are the queue applied in FIFO order; a well-formed patch stays well-formed |

## Left out

- The Synthesis entry point and the game-release setup (`Program.cs:19-25`) are harness code.
- Link-cache warm-up and enumeration (`Program.cs:47, 51, 53`) are modelled as a given input sequence.
- Mutagen's `DeepCopy`, translation masks and `GetOrAddAsOverride` are library code. They are modelled as value copies:
  - a masked copy keeps the record's own fields and empties its child list;
  - `GetOrAddAsOverride` appends, since it is reached only when no worldspace with that FormKey exists.
- Record contents are uninterpreted `Fields`; a cell's landscape is part of its fields.
- In-place mutation and aliasing of the output tree: worldspaces, blocks and sub-blocks are values. Where `Program.cs` changes a node held in the group (`worldspace.SubCells.Add`, `block.Items.Add`, `subBlock.Items.Remove/Add`), `PatchMod.Apply` builds the changed node and writes it back at its index. Only the patch plugin's two lists are fields updated in place.
- `List.Remove(existingCell)` removes the first element equal to the found cell. Equal cells have equal FormKeys, so that element is the first FormKey match. It is modelled as removal at that index.
- The `ConcurrentQueue` and the unused `_lock` (`Program.cs:6, 17, 49`): the queue is a sequence, drained from the front. Thread safety is not modelled; both phases are sequential in `Program.cs`.
- A parent of the wrong record kind, which makes the casts at `Program.cs:71-80` throw, is not modelled. Each parent link has its expected kind by type, and only an absent link is modelled, as a skip.
- `StringComparison.OrdinalIgnoreCase`, and the case-insensitive plugin-name comparison inside FormKey equality, are modelled as ASCII case folding. Non-ASCII case mappings are not modelled.
- `BlockNumberX`/`BlockNumberY` are 16-bit in Mutagen. The model compares them as unbounded integers, which agrees because they are only compared for equality.
- Winner selection, per-field merge of cell attributes, worldspace re-resolution and a recursive master closure are absent from `Program.cs`, so none is modelled.
