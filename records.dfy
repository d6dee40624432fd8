/**
 * The records the patcher reads and writes, reduced to what it looks at:
 * identities (FormKey, ModKey), the coordinates of blocks and sub-blocks,
 * the child lists of the worldspace tree, and the override contexts the
 * link cache hands out for a landscape record.
 */
module Records {
  import opened Wrappers
  import ModNames

  datatype ModType = Master | Light | Plugin

  /** A plugin's identity; `name` excludes the file extension. */
  datatype ModKey = ModKey(name: string, kind: ModType)

  /** A record identity: the plugin that first defined it and an id within it. */
  datatype FormKey = FormKey(mod: ModKey, id: nat)

  /** A record's own fields other than its child lists, left uninterpreted. */
  type Fields = seq<int>

  datatype Landscape = Landscape(formKey: FormKey, fields: Fields)

  /** An exterior cell, with all of its content (its landscape among it) in `fields`. */
  datatype Cell = Cell(formKey: FormKey, fields: Fields)

  /** A worldspace sub-block; `x`, `y` are its BlockNumberX and BlockNumberY. */
  datatype SubBlock = SubBlock(x: int, y: int, fields: Fields, items: seq<Cell>)

  /** A worldspace block; `x`, `y` are its BlockNumberX and BlockNumberY. */
  datatype Block = Block(x: int, y: int, fields: Fields, items: seq<SubBlock>)

  datatype Worldspace = Worldspace(formKey: FormKey, fields: Fields, subCells: seq<Block>)

  datatype MasterReference = MasterReference(master: ModKey)

  /*
   * One override context of a landscape record, as the link cache supplies it:
   * the plugin that contributes it, the record, and the chain of parent
   * contexts (cell, sub-block, block, worldspace), any of which may be absent.
   */
  datatype WorldspaceContext = WorldspaceContext(record: Worldspace)
  datatype BlockContext = BlockContext(record: Block, parent: Option<WorldspaceContext>)
  datatype SubBlockContext = SubBlockContext(record: SubBlock, parent: Option<BlockContext>)
  datatype CellContext = CellContext(record: Cell, parent: Option<SubBlockContext>)
  datatype LandscapeContext = LandscapeContext(modKey: ModKey, record: Landscape, parent: Option<CellContext>)

  /** One unit of work: a selected landscape context and the four ancestors it lives under. */
  datatype LandscapeItem = LandscapeItem(
    modContext: LandscapeContext,
    cell: Cell,
    subBlock: SubBlock,
    block: Block,
    worldspace: Worldspace)

  /*
   * The copy masks: a masked copy keeps the record's own fields and drops
   * its child list (SubCells for a worldspace, Items for blocks and sub-blocks).
   */
  function MaskWorldspace(w: Worldspace): Worldspace {
    Worldspace(w.formKey, w.fields, [])
  }

  function MaskBlock(b: Block): Block {
    Block(b.x, b.y, b.fields, [])
  }

  function MaskSubBlock(s: SubBlock): SubBlock {
    SubBlock(s.x, s.y, s.fields, [])
  }

  /**
   * What FormKey equality compares: the id, the plugin type, and the plugin
   * name ignoring (ASCII) case, as ModKey equality does.
   */
  type FormId = (string, ModType, nat)

  function Identity(fk: FormKey): FormId {
    (ModNames.FoldCase(fk.mod.name), fk.mod.kind, fk.id)
  }

  /* The keys children are searched by. */
  function WorldspaceKey(w: Worldspace): FormId { Identity(w.formKey) }
  function BlockKey(b: Block): (int, int) { (b.x, b.y) }
  function SubBlockKey(s: SubBlock): (int, int) { (s.x, s.y) }
  function CellKey(c: Cell): FormId { Identity(c.formKey) }
}
