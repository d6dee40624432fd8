/**
 * What applying one work item does to the patch's worldspace tree, as
 * functions over values: find or create the worldspace, then the block,
 * then the sub-block, and put the cell copy in place of any cell with the
 * same FormKey. The properties of the update are proved here; the class
 * that performs it in place is in module Patcher.
 */
module Merge {
  import opened Wrappers
  import opened Lists
  import opened Records

  /** Remove the first cell with the new cell's FormKey, if any, then append the new cell. */
  function ReplaceCell(cells: seq<Cell>, cell: Cell): seq<Cell> {
    var kept := match IndexOfKey(cells, CellKey, CellKey(cell))
      case None => cells
      case Some(i) => RemoveAt(cells, i);
    kept + [cell]
  }

  /** Find or create the item's sub-block by its coordinates, then place the cell in it. */
  function InsertIntoSubBlocks(subBlocks: seq<SubBlock>, item: LandscapeItem): seq<SubBlock> {
    match IndexOfKey(subBlocks, SubBlockKey, SubBlockKey(item.subBlock))
    case Some(i) => subBlocks[i := subBlocks[i].(items := ReplaceCell(subBlocks[i].items, item.cell))]
    case None =>
      var created := MaskSubBlock(item.subBlock);
      subBlocks + [created.(items := ReplaceCell(created.items, item.cell))]
  }

  /** The block created when a worldspace has none at the item's block coordinates. */
  function NewBlock(item: LandscapeItem): Block {
    var subBlock := MaskSubBlock(item.subBlock);
    var block := MaskBlock(item.block);
    block.(items := block.items + [subBlock.(items := subBlock.items + [item.cell])])
  }

  /** Find the item's block by its coordinates and insert below it, or append a new block. */
  function InsertIntoBlocks(blocks: seq<Block>, item: LandscapeItem): seq<Block> {
    match IndexOfKey(blocks, BlockKey, BlockKey(item.block))
    case Some(i) => blocks[i := blocks[i].(items := InsertIntoSubBlocks(blocks[i].items, item))]
    case None => blocks + [NewBlock(item)]
  }

  /** The patch's worldspaces after one work item has been applied. */
  function PatchWorldspaces(worldspaces: seq<Worldspace>, item: LandscapeItem): seq<Worldspace> {
    match IndexOfKey(worldspaces, WorldspaceKey, WorldspaceKey(item.worldspace))
    case Some(i) => worldspaces[i := worldspaces[i].(subCells := InsertIntoBlocks(worldspaces[i].subCells, item))]
    case None =>
      var created := MaskWorldspace(item.worldspace);
      worldspaces + [created.(subCells := InsertIntoBlocks(created.subCells, item))]
  }

  /* ---------------------------------------------------------------------
   * Well-formedness: sibling keys are unique at every level of the tree.
   * --------------------------------------------------------------------- */

  predicate CellsWellFormed(cells: seq<Cell>) {
    UniqueKeys(cells, CellKey)
  }

  predicate SubBlocksWellFormed(subBlocks: seq<SubBlock>) {
    && UniqueKeys(subBlocks, SubBlockKey)
    && forall i :: 0 <= i < |subBlocks| ==> CellsWellFormed(subBlocks[i].items)
  }

  predicate BlocksWellFormed(blocks: seq<Block>) {
    && UniqueKeys(blocks, BlockKey)
    && forall i :: 0 <= i < |blocks| ==> SubBlocksWellFormed(blocks[i].items)
  }

  predicate PatchWellFormed(worldspaces: seq<Worldspace>) {
    && UniqueKeys(worldspaces, WorldspaceKey)
    && forall i :: 0 <= i < |worldspaces| ==> BlocksWellFormed(worldspaces[i].subCells)
  }

  /* ---------------------------------------------------------------------
   * Cell replacement.
   * --------------------------------------------------------------------- */

  /**
   * The new cell ends up last; the number of cells with its FormKey becomes
   * one if there were none and is otherwise unchanged (the first is replaced);
   * every cell with another FormKey is kept, in order.
   */
  lemma ReplaceCellSpec(cells: seq<Cell>, cell: Cell)
    ensures var r := ReplaceCell(cells, cell);
      && r[|r| - 1] == cell
      && CountKey(r, CellKey, CellKey(cell)) ==
           (if CountKey(cells, CellKey, CellKey(cell)) == 0 then 1 else CountKey(cells, CellKey, CellKey(cell)))
      && DropKey(r, CellKey, CellKey(cell)) == DropKey(cells, CellKey, CellKey(cell))
  {
    var k := CellKey(cell);
    match IndexOfKey(cells, CellKey, k)
    case None =>
      CountKeyAppend(cells, cell, CellKey, k);
      DropKeyAppend(cells, cell, CellKey, k);
    case Some(i) =>
      var kept := RemoveAt(cells, i);
      CountKeyRemoveAt(cells, i, CellKey, k);
      DropKeyRemoveAt(cells, i, CellKey, k);
      CountKeyAppend(kept, cell, CellKey, k);
      DropKeyAppend(kept, cell, CellKey, k);
  }

  /** With at most one cell of that FormKey before, the new copy is afterwards the only one. */
  lemma ReplaceCellLeavesOnlyNew(cells: seq<Cell>, cell: Cell)
    requires CountKey(cells, CellKey, CellKey(cell)) <= 1
    ensures var r := ReplaceCell(cells, cell);
      && CountKey(r, CellKey, CellKey(cell)) == 1
      && forall j :: 0 <= j < |r| && CellKey(r[j]) == CellKey(cell) ==> r[j] == cell
  {
    ReplaceCellSpec(cells, cell);
    var k := CellKey(cell);
    var kept := match IndexOfKey(cells, CellKey, k)
      case None => cells
      case Some(i) => RemoveAt(cells, i);
    if IndexOfKey(cells, CellKey, k).Some? {
      RemoveOnlyOccurrence(cells, IndexOfKey(cells, CellKey, k).value, CellKey, k);
    }
    assert forall j :: 0 <= j < |kept| ==> CellKey(kept[j]) != k;
  }

  lemma ReplaceCellKeepsUnique(cells: seq<Cell>, cell: Cell)
    requires CellsWellFormed(cells)
    ensures CellsWellFormed(ReplaceCell(cells, cell))
  {
    UniqueKeysCount(cells, CellKey, CellKey(cell));
    ReplaceCellLeavesOnlyNew(cells, cell);
  }

  /* ---------------------------------------------------------------------
   * Well-formedness is preserved by every work item.
   * --------------------------------------------------------------------- */

  lemma InsertIntoSubBlocksWellFormed(subBlocks: seq<SubBlock>, item: LandscapeItem)
    requires SubBlocksWellFormed(subBlocks)
    ensures SubBlocksWellFormed(InsertIntoSubBlocks(subBlocks, item))
  {
    var r := InsertIntoSubBlocks(subBlocks, item);
    match IndexOfKey(subBlocks, SubBlockKey, SubBlockKey(item.subBlock))
    case Some(i) =>
      ReplaceCellKeepsUnique(subBlocks[i].items, item.cell);
      assert forall j :: 0 <= j < |r| ==> SubBlockKey(r[j]) == SubBlockKey(subBlocks[j]);
    case None =>
      ReplaceCellKeepsUnique([], item.cell);
      assert forall j :: 0 <= j < |subBlocks| ==> r[j] == subBlocks[j];
  }

  lemma InsertIntoBlocksWellFormed(blocks: seq<Block>, item: LandscapeItem)
    requires BlocksWellFormed(blocks)
    ensures BlocksWellFormed(InsertIntoBlocks(blocks, item))
  {
    var r := InsertIntoBlocks(blocks, item);
    match IndexOfKey(blocks, BlockKey, BlockKey(item.block))
    case Some(i) =>
      InsertIntoSubBlocksWellFormed(blocks[i].items, item);
      assert forall j :: 0 <= j < |r| ==> BlockKey(r[j]) == BlockKey(blocks[j]);
    case None =>
      assert forall j :: 0 <= j < |blocks| ==> r[j] == blocks[j];
  }

  /**
   * Applying a work item keeps worldspace FormKeys, block and sub-block
   * coordinates and cell FormKeys unique among siblings.
   */
  lemma PatchWorldspacesWellFormed(worldspaces: seq<Worldspace>, item: LandscapeItem)
    requires PatchWellFormed(worldspaces)
    ensures PatchWellFormed(PatchWorldspaces(worldspaces, item))
  {
    var r := PatchWorldspaces(worldspaces, item);
    match IndexOfKey(worldspaces, WorldspaceKey, WorldspaceKey(item.worldspace))
    case Some(i) =>
      InsertIntoBlocksWellFormed(worldspaces[i].subCells, item);
      assert forall j :: 0 <= j < |r| ==> WorldspaceKey(r[j]) == WorldspaceKey(worldspaces[j]);
    case None =>
      InsertIntoBlocksWellFormed([], item);
      assert forall j :: 0 <= j < |worldspaces| ==> r[j] == worldspaces[j];
  }

  /* ---------------------------------------------------------------------
   * The shape of one update.
   * --------------------------------------------------------------------- */

  /**
   * The item's worldspace is reused when the patch has one with its FormKey
   * (its block list gets the item as InsertIntoBlocks says, and no other
   * worldspace changes); otherwise a
   * copy without blocks is appended and receives the one new block.
   */
  lemma PatchWorldspacesShape(worldspaces: seq<Worldspace>, item: LandscapeItem)
    ensures var r := PatchWorldspaces(worldspaces, item);
      match IndexOfKey(worldspaces, WorldspaceKey, WorldspaceKey(item.worldspace))
      case Some(i) =>
        && |r| == |worldspaces|
        && r[i].formKey == worldspaces[i].formKey && r[i].fields == worldspaces[i].fields
        && r[i].subCells == InsertIntoBlocks(worldspaces[i].subCells, item)
        && (forall j :: 0 <= j < |worldspaces| && j != i ==> r[j] == worldspaces[j])
      case None =>
        && r == worldspaces + [Worldspace(item.worldspace.formKey, item.worldspace.fields, [NewBlock(item)])]
  {
    assert MaskWorldspace(item.worldspace).subCells + [NewBlock(item)] == [NewBlock(item)];
  }

  /** In a well-formed patch the item's worldspace is afterwards present exactly once. */
  lemma PatchWorldspacesHoldsWorldspace(worldspaces: seq<Worldspace>, item: LandscapeItem)
    requires PatchWellFormed(worldspaces)
    ensures CountKey(PatchWorldspaces(worldspaces, item), WorldspaceKey, WorldspaceKey(item.worldspace)) == 1
  {
    var r := PatchWorldspaces(worldspaces, item);
    PatchWorldspacesWellFormed(worldspaces, item);
    UniqueKeysCount(r, WorldspaceKey, WorldspaceKey(item.worldspace));
    match IndexOfKey(worldspaces, WorldspaceKey, WorldspaceKey(item.worldspace))
    case Some(i) =>
      assert WorldspaceKey(r[i]) == WorldspaceKey(item.worldspace);
    case None =>
      assert WorldspaceKey(r[|worldspaces|]) == WorldspaceKey(item.worldspace);
  }

  lemma NewBlockShape(item: LandscapeItem)
    ensures NewBlock(item) == Block(item.block.x, item.block.y, item.block.fields,
                                    [SubBlock(item.subBlock.x, item.subBlock.y, item.subBlock.fields, [item.cell])])
  {
    assert [] + [item.cell] == [item.cell];
    var sb := SubBlock(item.subBlock.x, item.subBlock.y, item.subBlock.fields, [item.cell]);
    assert [] + [sb] == [sb];
  }

  /**
   * The new block holds exactly one sub-block, which holds exactly the cell;
   * an existing block keeps its coordinates and fields, its sub-block list
   * gets the item as InsertIntoSubBlocks says, and the other blocks are
   * untouched.
   */
  lemma InsertIntoBlocksShape(blocks: seq<Block>, item: LandscapeItem)
    ensures var r := InsertIntoBlocks(blocks, item);
      match IndexOfKey(blocks, BlockKey, BlockKey(item.block))
      case Some(i) =>
        && |r| == |blocks|
        && BlockKey(r[i]) == BlockKey(blocks[i]) && r[i].fields == blocks[i].fields
        && r[i].items == InsertIntoSubBlocks(blocks[i].items, item)
        && (forall j :: 0 <= j < |blocks| && j != i ==> r[j] == blocks[j])
      case None =>
        && r == blocks + [Block(item.block.x, item.block.y, item.block.fields,
                                [SubBlock(item.subBlock.x, item.subBlock.y, item.subBlock.fields, [item.cell])])]
  {
    NewBlockShape(item);
  }

  /**
   * The sub-block is found by coordinates or created empty and appended; the
   * cell is placed in it, and no other sub-block changes.
   */
  lemma InsertIntoSubBlocksShape(subBlocks: seq<SubBlock>, item: LandscapeItem)
    ensures var r := InsertIntoSubBlocks(subBlocks, item);
      match IndexOfKey(subBlocks, SubBlockKey, SubBlockKey(item.subBlock))
      case Some(i) =>
        && |r| == |subBlocks|
        && r[i] == subBlocks[i].(items := ReplaceCell(subBlocks[i].items, item.cell))
        && (forall j :: 0 <= j < |subBlocks| && j != i ==> r[j] == subBlocks[j])
      case None =>
        && r == subBlocks + [SubBlock(item.subBlock.x, item.subBlock.y, item.subBlock.fields, [item.cell])]
  {
    assert ReplaceCell([], item.cell) == [item.cell];
  }

  /* ---------------------------------------------------------------------
   * Looking a cell up by its path: the update is seen at the item's path
   * and nowhere else.
   * --------------------------------------------------------------------- */

  /** Where a cell sits: worldspace FormKey, block and sub-block coordinates, cell FormKey. */
  datatype CellPath = CellPath(worldspace: FormId, block: (int, int), subBlock: (int, int), cell: FormId)

  function PathOf(item: LandscapeItem): CellPath {
    CellPath(WorldspaceKey(item.worldspace), BlockKey(item.block), SubBlockKey(item.subBlock), CellKey(item.cell))
  }

  function CellInSubBlocks(subBlocks: seq<SubBlock>, p: CellPath): Option<Cell> {
    match Lookup(subBlocks, SubBlockKey, p.subBlock)
    case None => None
    case Some(s) => Lookup(s.items, CellKey, p.cell)
  }

  function CellInBlocks(blocks: seq<Block>, p: CellPath): Option<Cell> {
    match Lookup(blocks, BlockKey, p.block)
    case None => None
    case Some(b) => CellInSubBlocks(b.items, p)
  }

  /** The cell a search of the patch along path `p` finds, as the patcher searches (first match). */
  function CellAt(worldspaces: seq<Worldspace>, p: CellPath): Option<Cell> {
    match Lookup(worldspaces, WorldspaceKey, p.worldspace)
    case None => None
    case Some(w) => CellInBlocks(w.subCells, p)
  }

  lemma LookupReplaceCell(cells: seq<Cell>, cell: Cell, k: FormId)
    ensures k != CellKey(cell) ==> Lookup(ReplaceCell(cells, cell), CellKey, k) == Lookup(cells, CellKey, k)
    ensures k == CellKey(cell) && CellsWellFormed(cells) ==> Lookup(ReplaceCell(cells, cell), CellKey, k) == Some(cell)
  {
    match IndexOfKey(cells, CellKey, CellKey(cell))
    case None =>
      LookupAppend(cells, cell, CellKey, k);
    case Some(i) =>
      var kept := RemoveAt(cells, i);
      LookupAppend(kept, cell, CellKey, k);
      if k != CellKey(cell) {
        LookupRemoveAt(cells, i, CellKey, k);
      } else if CellsWellFormed(cells) {
        UniqueKeysCount(cells, CellKey, k);
        RemoveOnlyOccurrence(cells, i, CellKey, k);
      }
  }

  lemma LookupInsertIntoSubBlocks(subBlocks: seq<SubBlock>, item: LandscapeItem, p: CellPath)
    ensures (p.subBlock, p.cell) != (SubBlockKey(item.subBlock), CellKey(item.cell)) ==>
      CellInSubBlocks(InsertIntoSubBlocks(subBlocks, item), p) == CellInSubBlocks(subBlocks, p)
    ensures ((p.subBlock, p.cell) == (SubBlockKey(item.subBlock), CellKey(item.cell)) && SubBlocksWellFormed(subBlocks)) ==>
      CellInSubBlocks(InsertIntoSubBlocks(subBlocks, item), p) == Some(item.cell)
  {
    match IndexOfKey(subBlocks, SubBlockKey, SubBlockKey(item.subBlock))
    case Some(i) =>
      var updated := subBlocks[i].(items := ReplaceCell(subBlocks[i].items, item.cell));
      LookupUpdate(subBlocks, i, updated, SubBlockKey, p.subBlock);
      LookupReplaceCell(subBlocks[i].items, item.cell, p.cell);
    case None =>
      var created := MaskSubBlock(item.subBlock);
      LookupAppend(subBlocks, created.(items := ReplaceCell(created.items, item.cell)), SubBlockKey, p.subBlock);
      LookupReplaceCell([], item.cell, p.cell);
  }

  lemma LookupInsertIntoBlocks(blocks: seq<Block>, item: LandscapeItem, p: CellPath)
    ensures (p.block, p.subBlock, p.cell) != (BlockKey(item.block), SubBlockKey(item.subBlock), CellKey(item.cell)) ==>
      CellInBlocks(InsertIntoBlocks(blocks, item), p) == CellInBlocks(blocks, p)
    ensures ((p.block, p.subBlock, p.cell) == (BlockKey(item.block), SubBlockKey(item.subBlock), CellKey(item.cell)) &&
             BlocksWellFormed(blocks)) ==>
      CellInBlocks(InsertIntoBlocks(blocks, item), p) == Some(item.cell)
  {
    match IndexOfKey(blocks, BlockKey, BlockKey(item.block))
    case Some(i) =>
      var updated := blocks[i].(items := InsertIntoSubBlocks(blocks[i].items, item));
      LookupUpdate(blocks, i, updated, BlockKey, p.block);
      LookupInsertIntoSubBlocks(blocks[i].items, item, p);
    case None =>
      var block := NewBlock(item);
      LookupAppend(blocks, block, BlockKey, p.block);
      LookupAppend([], block.items[0], SubBlockKey, p.subBlock);
      LookupAppend([], item.cell, CellKey, p.cell);
      assert block.items == [] + [block.items[0]];
      assert block.items[0].items == [] + [item.cell];
  }

  /** After a work item is applied, the search along its path finds its cell. */
  lemma ApplyStoresCell(worldspaces: seq<Worldspace>, item: LandscapeItem)
    requires PatchWellFormed(worldspaces)
    ensures CellAt(PatchWorldspaces(worldspaces, item), PathOf(item)) == Some(item.cell)
  {
    var p := PathOf(item);
    match IndexOfKey(worldspaces, WorldspaceKey, WorldspaceKey(item.worldspace))
    case Some(i) =>
      var updated := worldspaces[i].(subCells := InsertIntoBlocks(worldspaces[i].subCells, item));
      LookupUpdate(worldspaces, i, updated, WorldspaceKey, p.worldspace);
      LookupInsertIntoBlocks(worldspaces[i].subCells, item, p);
    case None =>
      var created := MaskWorldspace(item.worldspace);
      LookupAppend(worldspaces, created.(subCells := InsertIntoBlocks(created.subCells, item)), WorldspaceKey, p.worldspace);
      LookupInsertIntoBlocks([], item, p);
  }

  /** Applying a work item changes what no search along any other path finds. */
  lemma ApplyKeepsOtherCells(worldspaces: seq<Worldspace>, item: LandscapeItem, p: CellPath)
    requires p != PathOf(item)
    ensures CellAt(PatchWorldspaces(worldspaces, item), p) == CellAt(worldspaces, p)
  {
    match IndexOfKey(worldspaces, WorldspaceKey, WorldspaceKey(item.worldspace))
    case Some(i) =>
      var updated := worldspaces[i].(subCells := InsertIntoBlocks(worldspaces[i].subCells, item));
      LookupUpdate(worldspaces, i, updated, WorldspaceKey, p.worldspace);
      LookupInsertIntoBlocks(worldspaces[i].subCells, item, p);
    case None =>
      var created := MaskWorldspace(item.worldspace);
      LookupAppend(worldspaces, created.(subCells := InsertIntoBlocks(created.subCells, item)), WorldspaceKey, p.worldspace);
  }
}
