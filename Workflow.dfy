/**
 * The block list of `WorkflowBuilder.tsx`.
 *
 * Dragging a palette entry creates a pending block; dropping it on the canvas appends it at
 * the drop point. Blocks can then be moved, deleted and configured. The list operations are
 * the functions below; the class `WorkflowBuilder` holds the component's fields and its
 * handlers reassign them. Block ids come from a counter that stands for `Date.now()`.
 */
module Workflow {
  import opened Wrappers
  import Seqs

  type BlockId = nat

  /** A block; `blockType` is the palette type it was created from, kept as text as in the source. */
  datatype Block = Block(id: BlockId, blockType: string, x: real, y: real, config: map<string, string>)

  /** One palette entry. */
  datatype BlockKind = BlockKind(blockType: string, icon: string, caption: string, color: string)

  const BlockTypes: seq<BlockKind> := [
    BlockKind("template", "📄", "Generate Template", "bg-blue-100"),
    BlockKind("condition", "🔀", "Condition", "bg-yellow-100"),
    BlockKind("action", "⚡", "Action", "bg-green-100"),
    BlockKind("delay", "⏱️", "Delay", "bg-purple-100")
  ]

  const DefaultIcon := "📦"
  const DefaultColor := "bg-gray-100"

  /** `blockTypes.find(b => b.type === t)`. */
  function FindKind(kinds: seq<BlockKind>, t: string): (r: Option<BlockKind>)
    ensures r.None? <==> forall k :: 0 <= k < |kinds| ==> kinds[k].blockType != t
    ensures r.Some? ==> exists k :: 0 <= k < |kinds| && kinds[k] == r.value && r.value.blockType == t
                                   && forall j :: 0 <= j < k ==> kinds[j].blockType != t
  {
    if kinds == [] then None
    else if kinds[0].blockType == t then Some(kinds[0])
    else
      var r := FindKind(kinds[1..], t);
      assert forall j :: 1 <= j < |kinds| ==> kinds[j] == kinds[1..][j - 1];
      assert r.Some? ==> exists k :: 0 <= k < |kinds| && kinds[k] == r.value && r.value.blockType == t
                                   && forall j :: 0 <= j < k ==> kinds[j].blockType != t by {
        if r.Some? {
          var k :| 0 <= k < |kinds[1..]| && kinds[1..][k] == r.value && forall j :: 0 <= j < k ==> kinds[1..][j].blockType != t;
          assert kinds[k + 1] == r.value;
        }
      }
      r
  }

  /** `getBlockIcon`: the palette icon of a known type, the package icon otherwise. */
  function GetBlockIcon(t: string): string {
    var k := FindKind(BlockTypes, t);
    if k.Some? && k.value.icon != "" then k.value.icon else DefaultIcon
  }

  /** `getBlockColor`: the palette color of a known type, grey otherwise. */
  function GetBlockColor(t: string): string {
    var k := FindKind(BlockTypes, t);
    if k.Some? && k.value.color != "" then k.value.color else DefaultColor
  }

  /** The palette entry of each known type. */
  lemma KnownBlockLookups()
    ensures GetBlockIcon("template") == "📄" && GetBlockColor("template") == "bg-blue-100"
    ensures GetBlockIcon("condition") == "🔀" && GetBlockColor("condition") == "bg-yellow-100"
    ensures GetBlockIcon("action") == "⚡" && GetBlockColor("action") == "bg-green-100"
    ensures GetBlockIcon("delay") == "⏱️" && GetBlockColor("delay") == "bg-purple-100"
  {
    PaletteLookups();
    assert BlockTypes[0].blockType == "template" && BlockTypes[1].blockType == "condition";
    assert BlockTypes[2].blockType == "action" && BlockTypes[3].blockType == "delay";
  }

  /** Every palette entry is what the lookups give for its type name. */
  lemma PaletteLookups()
    ensures forall k :: 0 <= k < |BlockTypes| ==>
      GetBlockIcon(BlockTypes[k].blockType) == BlockTypes[k].icon && GetBlockColor(BlockTypes[k].blockType) == BlockTypes[k].color
  {
    BlockTypesDistinct();
    forall k | 0 <= k < |BlockTypes|
      ensures FindKind(BlockTypes, BlockTypes[k].blockType) == Some(BlockTypes[k])
    {
      FindKindAt(BlockTypes, k);
    }
    BlockTypesFilled();
  }

  lemma BlockTypesDistinct()
    ensures DistinctKinds(BlockTypes)
  {
    var kinds := BlockTypes;
    assert |kinds[0].blockType| == 8 && |kinds[1].blockType| == 9;
    assert |kinds[2].blockType| == 6 && |kinds[3].blockType| == 5;
  }

  /** Every palette entry has an icon and a color, so the lookups never fall back for them. */
  lemma BlockTypesFilled()
    ensures forall k :: 0 <= k < |BlockTypes| ==> BlockTypes[k].icon != "" && BlockTypes[k].color != ""
  {
    var kinds := BlockTypes;
    assert |kinds[0].icon| > 0 && |kinds[1].icon| > 0 && |kinds[2].icon| > 0 && |kinds[3].icon| > 0;
  }

  /** No two palette entries share a type name. */
  predicate DistinctKinds(kinds: seq<BlockKind>) {
    forall i, j :: 0 <= i < j < |kinds| ==> kinds[i].blockType != kinds[j].blockType
  }

  /** A type name that is not in the palette gets the package icon and grey. */
  lemma UnknownBlockLookup(t: string)
    requires t != "template" && t != "condition" && t != "action" && t != "delay"
    ensures GetBlockIcon(t) == "📦" && GetBlockColor(t) == "bg-gray-100"
  {
    assert forall k :: 0 <= k < |BlockTypes| ==> BlockTypes[k].blockType != t;
  }

  /** The first entry carrying a type name is the one found. */
  lemma FindKindAt(kinds: seq<BlockKind>, k: nat)
    requires k < |kinds| && DistinctKinds(kinds)
    ensures FindKind(kinds, kinds[k].blockType) == Some(kinds[k])
  {
    var r := FindKind(kinds, kinds[k].blockType);
    var m :| 0 <= m < |kinds| && kinds[m] == r.value && r.value.blockType == kinds[k].blockType
             && forall j :: 0 <= j < m ==> kinds[j].blockType != kinds[k].blockType;
    assert m == k;
  }

  /** The block `handleDragStart(blockType)` creates: at (0, 0) with an empty config. */
  function PendingBlock(blockType: string, id: BlockId): Block {
    Block(id, blockType, 0.0, 0.0, map[])
  }

  /** `handleBlockMove(id, x, y)`. */
  function MoveBlock(blocks: seq<Block>, id: BlockId, x: real, y: real): (r: seq<Block>)
    ensures |r| == |blocks|
  {
    seq(|blocks|, i requires 0 <= i < |blocks| =>
      if blocks[i].id == id then blocks[i].(x := x, y := y) else blocks[i])
  }

  /** `blocks.filter(block => block.id !== id)`. */
  function DeleteBlock(blocks: seq<Block>, id: BlockId): seq<Block> {
    Seqs.Filter(blocks, OtherBlock(id))
  }

  function OtherBlock(id: BlockId): Block -> bool {
    (b: Block) => b.id != id
  }

  /** Replaces the config of the blocks carrying the selected id; nothing without a selection. */
  function ConfigureBlock(blocks: seq<Block>, selected: Option<BlockId>, config: map<string, string>): (r: seq<Block>)
    ensures |r| == |blocks|
  {
    if selected.None? then blocks
    else
      seq(|blocks|, i requires 0 <= i < |blocks| =>
        if blocks[i].id == selected.value then blocks[i].(config := config) else blocks[i])
  }

  predicate HasBlock(blocks: seq<Block>, id: BlockId) {
    exists i :: 0 <= i < |blocks| && blocks[i].id == id
  }

  predicate UniqueBlockIds(blocks: seq<Block>) {
    forall i, j :: 0 <= i < j < |blocks| ==> blocks[i].id != blocks[j].id
  }

  /** A move changes only `x` and `y`, and only of the blocks carrying the id. */
  lemma MoveBlockSpec(blocks: seq<Block>, id: BlockId, x: real, y: real)
    ensures var r := MoveBlock(blocks, id, x, y);
      && (forall i :: 0 <= i < |blocks| && blocks[i].id != id ==> r[i] == blocks[i])
      && (forall i :: 0 <= i < |blocks| && blocks[i].id == id ==>
            r[i].x == x && r[i].y == y && r[i] == blocks[i].(x := r[i].x, y := r[i].y))
      && (!HasBlock(blocks, id) ==> r == blocks)
  {
  }

  /**
   * A delete leaves no block with the id, keeps every other block, and with unique ids it is
   * exactly the list without that one index, the others in their order.
   */
  lemma DeleteBlockSpec(blocks: seq<Block>, id: BlockId)
    ensures !HasBlock(DeleteBlock(blocks, id), id)
    ensures forall b :: b in DeleteBlock(blocks, id) <==> b in blocks && b.id != id
    ensures !HasBlock(blocks, id) ==> DeleteBlock(blocks, id) == blocks
    ensures forall k :: 0 <= k < |blocks| && blocks[k].id == id && UniqueBlockIds(blocks) ==>
      DeleteBlock(blocks, id) == Seqs.RemoveAt(blocks, k)
  {
    var keep := OtherBlock(id);
    forall b ensures b in DeleteBlock(blocks, id) <==> b in blocks && b.id != id {
      Seqs.FilterMembership(blocks, keep, b);
    }
    if !HasBlock(blocks, id) {
      Seqs.FilterAllKept(blocks, keep);
    }
    forall k | 0 <= k < |blocks| && blocks[k].id == id && UniqueBlockIds(blocks)
      ensures DeleteBlock(blocks, id) == Seqs.RemoveAt(blocks, k)
    {
      Seqs.FilterRemovesOne(blocks, k, keep);
    }
  }

  lemma ConfigureBlockSpec(blocks: seq<Block>, selected: Option<BlockId>, config: map<string, string>)
    ensures selected.None? ==> ConfigureBlock(blocks, selected, config) == blocks
    ensures selected.Some? ==>
      var r := ConfigureBlock(blocks, selected, config);
      && (forall i :: 0 <= i < |blocks| && blocks[i].id != selected.value ==> r[i] == blocks[i])
      && (forall i :: 0 <= i < |blocks| && blocks[i].id == selected.value ==> r[i] == blocks[i].(config := config))
  {
  }

  /**
   * One form field of the configuration panel: `{ ...config, key: value }` overwrites one key
   * and keeps the others.
   */
  function ConfigWith(config: map<string, string>, key: string, value: string): (r: map<string, string>)
    ensures key in r && r[key] == value
    ensures forall k :: k != key ==> (k in r <==> k in config) && (k in config ==> r[k] == config[k])
  {
    config[key := value]
  }

  /**
   * Typing into one field of the configuration panel: the panel spreads the shown block's
   * config, overwrites `key` and hands the result to the config update. Every block with the
   * selected id then has `key` set to the typed value and, when ids are unique, every other
   * key of its config as before; all other blocks, and every other attribute, are kept.
   */
  lemma EditConfigField(blocks: seq<Block>, selected: BlockId, key: string, value: string)
    requires HasBlock(blocks, selected)
    ensures var shown := FindBlock(blocks, selected).value;
      var r := ConfigureBlock(blocks, Some(selected), ConfigWith(shown.config, key, value));
      && |r| == |blocks|
      && (forall i :: 0 <= i < |blocks| && blocks[i].id != selected ==> r[i] == blocks[i])
      && (forall i :: 0 <= i < |blocks| && blocks[i].id == selected ==>
            && r[i] == blocks[i].(config := r[i].config)
            && key in r[i].config && r[i].config[key] == value
            && (UniqueBlockIds(blocks) ==>
                  forall k :: k != key ==>
                    (k in r[i].config <==> k in blocks[i].config) && (k in blocks[i].config ==> r[i].config[k] == blocks[i].config[k])))
  {
    var shown := FindBlock(blocks, selected).value;
    ConfigureBlockSpec(blocks, Some(selected), ConfigWith(shown.config, key, value));
    var k :| 0 <= k < |blocks| && blocks[k] == shown && shown.id == selected
             && forall j :: 0 <= j < k ==> blocks[j].id != selected;
    if UniqueBlockIds(blocks) {
      assert forall i :: 0 <= i < |blocks| && blocks[i].id == selected ==> i == k;
    }
  }

  /** `blocks.find(b => b.id === id)`: the first block carrying the id, if any. */
  function FindBlock(blocks: seq<Block>, id: BlockId): (r: Option<Block>)
    ensures r.None? <==> !HasBlock(blocks, id)
    ensures r.Some? ==> exists k :: 0 <= k < |blocks| && blocks[k] == r.value && r.value.id == id
                                   && forall j :: 0 <= j < k ==> blocks[j].id != id
  {
    if blocks == [] then None
    else if blocks[0].id == id then Some(blocks[0])
    else
      var r := FindBlock(blocks[1..], id);
      assert forall j :: 1 <= j < |blocks| ==> blocks[j] == blocks[1..][j - 1];
      assert r.Some? ==> exists k :: 0 <= k < |blocks| && blocks[k] == r.value && r.value.id == id
                                   && forall j :: 0 <= j < k ==> blocks[j].id != id by {
        if r.Some? {
          var k :| 0 <= k < |blocks[1..]| && blocks[1..][k] == r.value && r.value.id == id
                   && forall j :: 0 <= j < k ==> blocks[1..][j].id != id;
          assert blocks[k + 1] == r.value;
        }
      }
      r
  }

  /** The id counter's start: above every id of the initial blocks. */
  function NextBlockId(blocks: seq<Block>): (r: BlockId)
    ensures forall i :: 0 <= i < |blocks| ==> blocks[i].id < r
  {
    Seqs.KeyBound(blocks, (b: Block) => b.id)
  }

  class WorkflowBuilder {
    var workflowName: string
    var blocks: seq<Block>
    var selectedBlock: Option<BlockId>
    var draggedBlock: Option<Block>
    /** Stands for `Date.now()`. */
    var nextId: BlockId

    /** Ids on the canvas and of the pending block are below the counter. */
    predicate Valid()
      reads this
    {
      && (forall i :: 0 <= i < |blocks| ==> blocks[i].id < nextId)
      && (draggedBlock.Some? ==> draggedBlock.value.id < nextId)
    }

    /** The name and blocks of `initialWorkflow`, when given; an empty name and no blocks otherwise. */
    constructor (initialName: Option<string>, initialBlocks: Option<seq<Block>>)
      ensures Valid()
      ensures workflowName == (if initialName.Some? then initialName.value else "")
      ensures blocks == (if initialBlocks.Some? then initialBlocks.value else [])
      ensures selectedBlock.None? && draggedBlock.None?
    {
      workflowName := if initialName.Some? then initialName.value else "";
      blocks := if initialBlocks.Some? then initialBlocks.value else [];
      selectedBlock := None;
      draggedBlock := None;
      nextId := NextBlockId(if initialBlocks.Some? then initialBlocks.value else []);
    }

    method HandleDragStart(blockType: string)
      requires Valid()
      modifies this
      ensures Valid()
      ensures draggedBlock == Some(PendingBlock(blockType, old(nextId)))
      ensures blocks == old(blocks) && selectedBlock == old(selectedBlock) && workflowName == old(workflowName)
    {
      var newBlock := Block(nextId, blockType, 0.0, 0.0, map[]);
      nextId := nextId + 1;
      draggedBlock := Some(newBlock);
    }

    /** `handleDrop`, with the drop point given in canvas coordinates. */
    method HandleDrop(x: real, y: real)
      requires Valid()
      modifies this
      ensures Valid()
      ensures old(draggedBlock).None? ==> blocks == old(blocks) && draggedBlock.None?
      ensures old(draggedBlock).Some? ==>
        blocks == old(blocks) + [old(draggedBlock).value.(x := x, y := y)] && draggedBlock.None?
      ensures selectedBlock == old(selectedBlock) && nextId == old(nextId) && workflowName == old(workflowName)
    {
      if draggedBlock.Some? {
        blocks := blocks + [draggedBlock.value.(x := x, y := y)];
        draggedBlock := None;
      }
    }

    method HandleBlockMove(id: BlockId, x: real, y: real)
      requires Valid()
      modifies this
      ensures Valid()
      ensures blocks == MoveBlock(old(blocks), id, x, y)
      ensures selectedBlock == old(selectedBlock) && draggedBlock == old(draggedBlock) && nextId == old(nextId)
    {
      blocks := MoveBlock(blocks, id, x, y);
    }

    method HandleBlockDelete(id: BlockId)
      requires Valid()
      modifies this
      ensures Valid()
      ensures blocks == DeleteBlock(old(blocks), id)
      ensures selectedBlock == (if old(selectedBlock) == Some(id) then None else old(selectedBlock))
      ensures draggedBlock == old(draggedBlock) && nextId == old(nextId)
    {
      var before := blocks;
      blocks := DeleteBlock(blocks, id);
      forall i | 0 <= i < |blocks| ensures blocks[i].id < nextId {
        Seqs.FilterMembership(before, OtherBlock(id), blocks[i]);
      }
      if selectedBlock == Some(id) {
        selectedBlock := None;
      }
    }

    method HandleBlockConfigUpdate(config: map<string, string>)
      requires Valid()
      modifies this
      ensures Valid()
      ensures blocks == ConfigureBlock(old(blocks), old(selectedBlock), config)
      ensures selectedBlock == old(selectedBlock) && draggedBlock == old(draggedBlock) && nextId == old(nextId)
    {
      if selectedBlock.Some? {
        blocks := ConfigureBlock(blocks, selectedBlock, config);
      }
    }

    method SetWorkflowName(name: string)
      modifies this
      ensures workflowName == name && blocks == old(blocks) && selectedBlock == old(selectedBlock)
      ensures draggedBlock == old(draggedBlock) && nextId == old(nextId)
    {
      workflowName := name;
    }

    /** A click on a block on the canvas. */
    method SelectBlock(id: BlockId)
      requires Valid()
      modifies this
      ensures Valid() && selectedBlock == Some(id)
      ensures blocks == old(blocks) && draggedBlock == old(draggedBlock) && nextId == old(nextId)
    {
      selectedBlock := Some(id);
    }

    /** `selectedBlockData`: the block the configuration panel shows. */
    function SelectedBlockData(): (r: Option<Block>)
      reads this
      ensures r.Some? ==> selectedBlock.Some? && r.value.id == selectedBlock.value
                          && exists k :: 0 <= k < |blocks| && blocks[k] == r.value
                                         && forall j :: 0 <= j < k ==> blocks[j].id != selectedBlock.value
      ensures r.None? <==> selectedBlock.None? || !HasBlock(blocks, selectedBlock.value)
    {
      if selectedBlock.None? then None else FindBlock(blocks, selectedBlock.value)
    }
  }
}
