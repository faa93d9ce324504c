/** The geometric OCR service's response: a flat list of typed blocks that
    refer to one another by id (WORD, LINE, CELL, TABLE, KEY_VALUE_SET, ...).
    Coordinates are page fractions, kept exact as `real`. */
module Blocks {
  import opened Common

  datatype BlockType = Page | Line | Word | Table | Cell | KeyValueSet | Other

  datatype RelationType = Child | Value | OtherRelation

  /** One entry of a block's `Relationships` list. */
  datatype Relationship = Relationship(kind: RelationType, ids: seq<string>)

  datatype BoundingBox = BoundingBox(left: real, top: real, width: real, height: real)

  /** One detection. `text` and `confidence` are optional keys of the block;
      `rowIndex`/`columnIndex` are only read for CELL blocks. A missing
      `Relationships` key behaves as an empty list everywhere it is read. */
  datatype Block = Block(
    id: string,
    blockType: BlockType,
    text: Option<string>,
    box: BoundingBox,
    confidence: Option<real>,
    rowIndex: int,
    columnIndex: int,
    relationships: seq<Relationship>,
    entityTypes: seq<string>)

  /** The ids of every relationship of the given kind, in order. */
  function IdsOfKind(rels: seq<Relationship>, kind: RelationType): seq<string>
  {
    if |rels| == 0 then []
    else
      var last := rels[|rels| - 1];
      IdsOfKind(rels[..|rels| - 1], kind) + (if last.kind == kind then last.ids else [])
  }

  function ChildIds(b: Block): seq<string>
  {
    IdsOfKind(b.relationships, Child)
  }

  function ValueIds(b: Block): seq<string>
  {
    IdsOfKind(b.relationships, Value)
  }

  ghost predicate UniqueIds(blocks: seq<Block>)
  {
    forall i, j :: 0 <= i < j < |blocks| ==> blocks[i].id != blocks[j].id
  }

  /** `{block["Id"]: block for block in blocks}`: a later block with the same
      id replaces an earlier one. */
  function BlocksMap(blocks: seq<Block>): (m: map<string, Block>)
    ensures forall id :: id in m <==> exists i :: 0 <= i < |blocks| && blocks[i].id == id
    ensures forall id :: id in m ==> m[id].id == id
    ensures forall id :: id in m ==> exists i :: 0 <= i < |blocks| && blocks[i] == m[id]
  {
    if |blocks| == 0 then map[]
    else
      var init := blocks[..|blocks| - 1];
      var m0 := BlocksMap(init);
      assert forall i :: 0 <= i < |init| ==> init[i] == blocks[i];
      m0[blocks[|blocks| - 1].id := blocks[|blocks| - 1]]
  }

  /** A block that no later block shares its id with is the one kept under
      that id: the comprehension's last write wins. */
  lemma {:induction false} BlocksMapLastWins(blocks: seq<Block>, i: int)
    requires 0 <= i < |blocks|
    requires forall j :: i < j < |blocks| ==> blocks[j].id != blocks[i].id
    ensures BlocksMap(blocks)[blocks[i].id] == blocks[i]
  {
    var n := |blocks| - 1;
    var init := blocks[..n];
    assert BlocksMap(blocks) == BlocksMap(init)[blocks[n].id := blocks[n]];
    if i < n {
      assert init[i] == blocks[i];
      BlocksMapLastWins(init, i);
      assert blocks[n].id != blocks[i].id;
    }
  }

  /** With unique ids, every block is found under its own id. */
  lemma {:induction false} BlocksMapFindsEachBlock(blocks: seq<Block>, i: int)
    requires UniqueIds(blocks)
    requires 0 <= i < |blocks|
    ensures BlocksMap(blocks)[blocks[i].id] == blocks[i]
  {
    var n := |blocks| - 1;
    if i < n {
      var init := blocks[..n];
      assert init[i] == blocks[i];
      BlocksMapFindsEachBlock(init, i);
      assert blocks[n].id != blocks[i].id;
    }
  }
}
