/**
 * The scan phase of the patch: for every landscape identity, select the
 * first layer contributed by a Northern Roads plugin, follow its parent
 * chain up to the worldspace, and queue a work item when the chain is whole.
 */
module Scan {
  import opened Wrappers
  import opened Lists
  import opened Records
  import opened ModNames

  /** The layer comes from a plugin whose name contains "Northern Roads", ignoring case. */
  predicate IsTarget(land: LandscapeContext) {
    IsNorthernRoadsName(land.modKey.name)
  }

  /** The first layer, in the order the link cache supplies them, that is a target. */
  function FirstTarget(landscapes: seq<LandscapeContext>): (r: Option<LandscapeContext>)
    ensures r.None? <==> forall i :: 0 <= i < |landscapes| ==> !IsTarget(landscapes[i])
    ensures r.Some? ==>
      exists i :: 0 <= i < |landscapes| && landscapes[i] == r.value && IsTarget(landscapes[i]) &&
        forall j :: 0 <= j < i ==> !IsTarget(landscapes[j])
  {
    match IndexOfKey(landscapes, IsTarget, true)
    case None => None
    case Some(i) => Some(landscapes[i])
  }

  /** Later layers cannot change the selection once a target has been found. */
  lemma FirstTargetIgnoresLater(landscapes: seq<LandscapeContext>, later: seq<LandscapeContext>)
    requires FirstTarget(landscapes).Some?
    ensures FirstTarget(landscapes + later) == FirstTarget(landscapes)
  {
    IndexOfKeyAppendAfter(landscapes, later, IsTarget, true);
  }

  /** With layers [a, b, c] where b and c are both targets, b is selected, not c. */
  lemma FirstOfTwoTargets(a: LandscapeContext, b: LandscapeContext, c: LandscapeContext)
    requires !IsTarget(a) && IsTarget(b) && IsTarget(c)
    ensures FirstTarget([a, b, c]) == Some(b)
  {
    assert IndexOfKey([a, b, c], IsTarget, true) == Some(1);
  }

  /** The scan over one identity's layers: stop at the first target. */
  method SelectTarget(landscapes: seq<LandscapeContext>) returns (last: Option<LandscapeContext>)
    ensures last == FirstTarget(landscapes)
  {
    last := None;
    for i := 0 to |landscapes|
      invariant last.None?
      invariant forall j :: 0 <= j < i ==> !IsTarget(landscapes[j])
    {
      var land := landscapes[i];
      if IsNorthernRoadsName(land.modKey.name) {
        IndexOfKeyAt(landscapes, i, IsTarget, true);
        last := Some(land);
        break;
      }
    }
  }

  /** How many links of the parent chain, from the cell upwards, are present (0 to 4). */
  function AncestorDepth(land: LandscapeContext): nat {
    match land.parent
    case None => 0
    case Some(cell) =>
      match cell.parent
      case None => 1
      case Some(subBlock) =>
        match subBlock.parent
        case None => 2
        case Some(block) =>
          match block.parent
          case None => 3
          case Some(_) => 4
  }

  /** The work item for a selected layer, or None when its parent chain is broken. */
  function ResolveItem(last: LandscapeContext): (r: Option<LandscapeItem>)
    ensures r.Some? <==> AncestorDepth(last) == 4
    ensures r.Some? ==> r.value.modContext == last
    ensures r.Some? ==>
      last.parent == Some(CellContext(r.value.cell,
        Some(SubBlockContext(r.value.subBlock,
          Some(BlockContext(r.value.block,
            Some(WorldspaceContext(r.value.worldspace))))))))
  {
    match last.parent
    case None => None
    case Some(cell) =>
      match cell.parent
      case None => None
      case Some(subBlock) =>
        match subBlock.parent
        case None => None
        case Some(block) =>
          match block.parent
          case None => None
          case Some(worldspace) =>
            Some(LandscapeItem(last, cell.record, subBlock.record, block.record, worldspace.record))
  }

  /** The work item one identity contributes, if any. */
  function ItemFor(landscapes: seq<LandscapeContext>): (r: Option<LandscapeItem>)
    ensures r.Some? <==> FirstTarget(landscapes).Some? && AncestorDepth(FirstTarget(landscapes).value) == 4
    ensures r.Some? ==> r.value.modContext == FirstTarget(landscapes).value
  {
    match FirstTarget(landscapes)
    case None => None
    case Some(last) => ResolveItem(last)
  }

  /**
   * No fallback: when the first matching context has a broken parent chain, the
   * identity yields nothing, whatever matching contexts follow it.
   */
  lemma NoFallbackToLaterTarget(first: LandscapeContext, later: seq<LandscapeContext>)
    requires IsTarget(first) && AncestorDepth(first) < 4
    ensures ItemFor([first] + later) == None
  {
    IndexOfKeyAt([first] + later, 0, IsTarget, true);
  }

  /** The queue the scan builds, one entry per identity that yields an item, in identity order. */
  function WorkItems(identities: seq<seq<LandscapeContext>>): (q: seq<LandscapeItem>)
    ensures |q| <= |identities|
  {
    FilterMap(identities, ItemFor)
  }

  /** The queue in the order of the identities, read from the front. */
  lemma WorkItemsCons(identity: seq<LandscapeContext>, rest: seq<seq<LandscapeContext>>)
    ensures WorkItems([identity] + rest) == OptionToSeq(ItemFor(identity)) + WorkItems(rest)
  {
    FilterMapCons(identity, rest, ItemFor);
  }

  /** Every queued item comes from one of the identities. */
  lemma WorkItemsSound(identities: seq<seq<LandscapeContext>>, k: nat)
    requires k < |WorkItems(identities)|
    ensures exists n :: 0 <= n < |identities| && ItemFor(identities[n]) == Some(WorkItems(identities)[k])
  {
    FilterMapSound(identities, ItemFor, k);
  }

  /** Every identity that yields an item has it queued. */
  lemma WorkItemsComplete(identities: seq<seq<LandscapeContext>>, n: nat)
    requires n < |identities| && ItemFor(identities[n]).Some?
    ensures ItemFor(identities[n]).value in WorkItems(identities)
  {
    FilterMapComplete(identities, ItemFor, n);
  }

  /** When no identity has a Northern Roads layer the queue stays empty. */
  lemma WorkItemsWithoutTargets(identities: seq<seq<LandscapeContext>>)
    requires forall n :: 0 <= n < |identities| ==> FirstTarget(identities[n]).None?
    ensures WorkItems(identities) == []
  {
    if WorkItems(identities) != [] {
      WorkItemsSound(identities, 0);
    }
  }

  /** The scan loop over all landscape identities. */
  method ScanLandscapes(identities: seq<seq<LandscapeContext>>) returns (queue: seq<LandscapeItem>)
    ensures queue == WorkItems(identities)
  {
    queue := [];
    for n := 0 to |identities|
      invariant queue == WorkItems(identities[..n])
    {
      assert identities[..n + 1][..n] == identities[..n];
      var landscapes := identities[n];
      var last := SelectTarget(landscapes);
      if last.None? {
        continue;
      }
      var cell := last.value.parent;
      if cell.None? {
        continue;
      }
      var subBlock := cell.value.parent;
      if subBlock.None? {
        continue;
      }
      var block := subBlock.value.parent;
      if block.None? {
        continue;
      }
      var worldspace := block.value.parent;
      if worldspace.None? {
        continue;
      }
      var item := LandscapeItem(last.value, cell.value.record, subBlock.value.record,
                                block.value.record, worldspace.value.record);
      queue := queue + [item];
    }
    assert identities[..|identities|] == identities;
  }
}
