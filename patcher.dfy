/**
 * RunPatch: scan the landscape identities into a queue of work items, then
 * drain the queue in FIFO order, updating the patch plugin in place.
 */
module Patcher {
  import opened Wrappers
  import opened Lists
  import opened Records
  import opened Scan
  import opened Merge

  /** The patch plugin under construction: its master list and its worldspace group. */
  class PatchMod {
    var masterReferences: seq<MasterReference>
    var worldspaces: seq<Worldspace>

    constructor ()
      ensures masterReferences == [] && worldspaces == []
    {
      masterReferences := [];
      worldspaces := [];
    }

    /** One iteration of the apply loop: record the master, then place the item's cell. */
    method Apply(item: LandscapeItem)
      modifies this
      ensures masterReferences == old(masterReferences) + [MasterReference(item.modContext.modKey)]
      ensures worldspaces == PatchWorldspaces(old(worldspaces), item)
      ensures old(PatchWellFormed(worldspaces)) ==>
        PatchWellFormed(worldspaces) && CellAt(worldspaces, PathOf(item)) == Some(item.cell)
    {
      ghost var before := worldspaces;
      masterReferences := masterReferences + [MasterReference(item.modContext.modKey)];

      // Find the worldspace by FormKey, or add a copy of it without its blocks.
      var k: nat;
      var found := IndexOfKey(worldspaces, WorldspaceKey, WorldspaceKey(item.worldspace));
      if found.None? {
        worldspaces := worldspaces + [MaskWorldspace(item.worldspace)];
        k := |worldspaces| - 1;
      } else {
        k := found.value;
      }
      var worldspace := worldspaces[k];

      var cell := item.cell;

      var blockIndex := IndexOfKey(worldspace.subCells, BlockKey, BlockKey(item.block));
      if blockIndex.Some? {
        var block := worldspace.subCells[blockIndex.value];
        var subBlocks := block.items;
        var s: nat;
        var subIndex := IndexOfKey(subBlocks, SubBlockKey, SubBlockKey(item.subBlock));
        if subIndex.None? {
          subBlocks := subBlocks + [MaskSubBlock(item.subBlock)];
          s := |subBlocks| - 1;
        } else {
          s := subIndex.value;
        }
        var subBlock := subBlocks[s];
        var cells := subBlock.items;
        var existing := IndexOfKey(cells, CellKey, CellKey(item.cell));
        if existing.Some? {
          cells := RemoveAt(cells, existing.value);
        }
        cells := cells + [cell];
        assert cells == ReplaceCell(subBlock.items, item.cell);
        subBlocks := subBlocks[s := subBlock.(items := cells)];
        assert subBlocks == InsertIntoSubBlocks(block.items, item);
        worldspace := worldspace.(subCells := worldspace.subCells[blockIndex.value := block.(items := subBlocks)]);
        assert worldspace.subCells == InsertIntoBlocks(worldspaces[k].subCells, item);
      } else {
        var subBlock := MaskSubBlock(item.subBlock);
        subBlock := subBlock.(items := subBlock.items + [cell]);
        var block := MaskBlock(item.block);
        block := block.(items := block.items + [subBlock]);
        assert block == NewBlock(item);
        worldspace := worldspace.(subCells := worldspace.subCells + [block]);
        assert worldspace.subCells == InsertIntoBlocks(worldspaces[k].subCells, item);
      }
      if found.None? {
        assert worldspaces[k] == MaskWorldspace(item.worldspace);
        assert worldspaces[k := worldspace] == before + [worldspace];
      }
      worldspaces := worldspaces[k := worldspace];

      if old(PatchWellFormed(worldspaces)) {
        PatchWorldspacesWellFormed(old(worldspaces), item);
        ApplyStoresCell(old(worldspaces), item);
      }
    }
  }

  /** The worldspaces after the queue has been drained front to back. */
  function ApplyAll(worldspaces: seq<Worldspace>, queue: seq<LandscapeItem>): seq<Worldspace>
    decreases |queue|
  {
    if queue == [] then worldspaces
    else ApplyAll(PatchWorldspaces(worldspaces, queue[0]), queue[1..])
  }

  /** The master references the drain appends: one per item, in queue order, naming the item's plugin. */
  function MasterRefs(queue: seq<LandscapeItem>): (refs: seq<MasterReference>)
    ensures |refs| == |queue|
    ensures forall i :: 0 <= i < |queue| ==> refs[i].master == queue[i].modContext.modKey
  {
    if queue == [] then []
    else [MasterReference(queue[0].modContext.modKey)] + MasterRefs(queue[1..])
  }

  lemma MasterRefsStep(refs: seq<MasterReference>, queue: seq<LandscapeItem>)
    requires queue != []
    ensures (refs + [MasterReference(queue[0].modContext.modKey)]) + MasterRefs(queue[1..]) == refs + MasterRefs(queue)
  {
  }

  /** The cell of the last item in the queue whose path is `p`, if any. */
  function LastCellFor(queue: seq<LandscapeItem>, p: CellPath): Option<Cell>
    decreases |queue|
  {
    if queue == [] then None
    else match LastCellFor(queue[1..], p)
      case Some(c) => Some(c)
      case None => if PathOf(queue[0]) == p then Some(queue[0].cell) else None
  }

  /** Draining the queue keeps sibling keys unique at every level. */
  lemma {:induction false} ApplyAllWellFormed(worldspaces: seq<Worldspace>, queue: seq<LandscapeItem>)
    requires PatchWellFormed(worldspaces)
    ensures PatchWellFormed(ApplyAll(worldspaces, queue))
    decreases |queue|
  {
    if queue != [] {
      PatchWorldspacesWellFormed(worldspaces, queue[0]);
      ApplyAllWellFormed(PatchWorldspaces(worldspaces, queue[0]), queue[1..]);
    }
  }

  /**
   * After the drain, the search along any path finds the cell of the last
   * item queued for that path, and what it found before when no item was.
   */
  lemma {:induction false} ApplyAllLastWriteWins(worldspaces: seq<Worldspace>, queue: seq<LandscapeItem>, p: CellPath)
    requires PatchWellFormed(worldspaces)
    ensures CellAt(ApplyAll(worldspaces, queue), p) ==
      match LastCellFor(queue, p)
      case Some(c) => Some(c)
      case None => CellAt(worldspaces, p)
    decreases |queue|
  {
    if queue != [] {
      var next := PatchWorldspaces(worldspaces, queue[0]);
      PatchWorldspacesWellFormed(worldspaces, queue[0]);
      ApplyAllLastWriteWins(next, queue[1..], p);
      if PathOf(queue[0]) == p {
        ApplyStoresCell(worldspaces, queue[0]);
      } else {
        ApplyKeepsOtherCells(worldspaces, queue[0], p);
      }
    }
  }

  /**
   * Two items under the same worldspace, block and sub-block but with
   * different cells: both cells are found afterwards, under the one sub-block.
   */
  lemma TwoCellsShareSubBlock(worldspaces: seq<Worldspace>, a: LandscapeItem, b: LandscapeItem)
    requires PatchWellFormed(worldspaces)
    requires PathOf(a).(cell := CellKey(b.cell)) == PathOf(b) && CellKey(a.cell) != CellKey(b.cell)
    ensures var after := ApplyAll(worldspaces, [a, b]);
      && PatchWellFormed(after)
      && CellAt(after, PathOf(a)) == Some(a.cell)
      && CellAt(after, PathOf(b)) == Some(b.cell)
  {
    ApplyAllWellFormed(worldspaces, [a, b]);
    assert [a, b][1..] == [b] && [b][1..] == [];
    assert LastCellFor([b], PathOf(a)) == None;
    assert LastCellFor([a, b], PathOf(a)) == Some(a.cell);
    assert LastCellFor([b], PathOf(b)) == Some(b.cell);
    assert LastCellFor([a, b], PathOf(b)) == Some(b.cell);
    ApplyAllLastWriteWins(worldspaces, [a, b], PathOf(a));
    ApplyAllLastWriteWins(worldspaces, [a, b], PathOf(b));
  }

  /**
   * One cell FormKey under two sub-block coordinates of the same block: the
   * search for an existing cell looks only inside the item's sub-block, so both
   * copies stay, one under each sub-block.
   */
  lemma SameCellTwoSubBlocks(worldspaces: seq<Worldspace>, a: LandscapeItem, b: LandscapeItem)
    requires PatchWellFormed(worldspaces)
    requires PathOf(a).(subBlock := SubBlockKey(b.subBlock)) == PathOf(b)
    requires SubBlockKey(a.subBlock) != SubBlockKey(b.subBlock)
    ensures var after := ApplyAll(worldspaces, [a, b]);
      && CellKey(a.cell) == CellKey(b.cell)
      && CellAt(after, PathOf(a)) == Some(a.cell)
      && CellAt(after, PathOf(b)) == Some(b.cell)
  {
    assert [a, b][1..] == [b] && [b][1..] == [];
    assert LastCellFor([b], PathOf(a)) == None;
    assert LastCellFor([a, b], PathOf(a)) == Some(a.cell);
    assert LastCellFor([b], PathOf(b)) == Some(b.cell);
    assert LastCellFor([a, b], PathOf(b)) == Some(b.cell);
    ApplyAllLastWriteWins(worldspaces, [a, b], PathOf(a));
    ApplyAllLastWriteWins(worldspaces, [a, b], PathOf(b));
  }

  /** The whole patch: scan, then drain the queue in FIFO order. */
  method RunPatch(patch: PatchMod, identities: seq<seq<LandscapeContext>>)
    modifies patch
    ensures patch.masterReferences == old(patch.masterReferences) + MasterRefs(WorkItems(identities))
    ensures patch.worldspaces == ApplyAll(old(patch.worldspaces), WorkItems(identities))
    ensures old(PatchWellFormed(patch.worldspaces)) ==> PatchWellFormed(patch.worldspaces)
  {
    var queue := ScanLandscapes(identities);
    ghost var all := queue;
    while queue != []
      invariant ApplyAll(patch.worldspaces, queue) == ApplyAll(old(patch.worldspaces), all)
      invariant patch.masterReferences + MasterRefs(queue) == old(patch.masterReferences) + MasterRefs(all)
      decreases |queue|
    {
      MasterRefsStep(patch.masterReferences, queue);
      var item := queue[0];
      queue := queue[1..];
      patch.Apply(item);
    }
    assert patch.masterReferences + [] == patch.masterReferences;
    if old(PatchWellFormed(patch.worldspaces)) {
      ApplyAllWellFormed(old(patch.worldspaces), all);
    }
  }
}
