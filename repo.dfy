/** The in-memory store as the program keeps it: a registry of board objects, each holding
    its item objects by id. Lookups hand out references to the stored objects themselves, and
    updates write through them. Each operation is proved to act on the store's contents as the
    matching function of BoardStore says. */
module MemoryRepo {
  import opened BoardStore
  import FreshIds

  /** A note on a board. */
  class Item {
    var version: nat
    var id: string
    var text: string
    var color: string
    var left: Geometry
    var top: Geometry
    var width: Geometry
    var height: Geometry

    /** An item holding the fields `d`: a draft decoded from a request, or a copy. */
    constructor (d: ItemData)
      ensures Data() == d
    {
      version, id, text, color := d.version, d.id, d.text, d.color;
      left, top, width, height := d.left, d.top, d.width, d.height;
    }

    function Data(): ItemData
      reads this
    {
      ItemData(version, id, text, color, left, top, width, height)
    }

    /** Assignment through a pointer: every field of `src` is copied into this item
        (`src` may be this item itself). */
    method CopyFrom(src: Item)
      modifies this
      ensures Data() == old(src.Data())
    {
      version, id, text, color, left, top, width, height :=
        src.version, src.id, src.text, src.color, src.left, src.top, src.width, src.height;
    }
  }

  /** A board: its id, its items by id and its version counter. */
  class Board {
    const id: string
    var items: map<string, Item>
    var version: nat

    constructor (id: string)
      ensures this.id == id && items == map[] && version == 0
    {
      this.id := id;
      items := map[];
      version := 0;
    }

    function Data(): BoardData
      reads this, items.Values
    {
      BoardData(id, map k | k in items :: items[k].Data(), version)
    }

    /** Each item is filed under its own id and is stamped with no version newer than the
        board's. */
    ghost predicate Valid()
      reads this, items.Values
    {
      forall k | k in items :: items[k].id == k && items[k].version <= version
    }
  }

  /** Filing a value under a key adds at most that value to a map's values. */
  lemma InsertValues<K, V>(m: map<K, V>, k: K, v: V)
    ensures m[k := v].Values <= m.Values + {v}
  {
    forall x | x in m[k := v].Values
      ensures x in m.Values + {v}
    {
      var j :| j in m[k := v] && m[k := v][j] == x;
      if j != k {
        assert m[j] == x;
      }
    }
  }

  /** A board whose fields and items' fields are as they were has the same contents. */
  twostate lemma BoardDataUnchanged(b: Board)
    requires unchanged(b)
    requires forall x | x in b.items.Values :: unchanged(x)
    ensures b.Data() == old(b.Data())
    ensures b.Valid() == old(b.Valid())
  {
  }

  /** What a result reports, with the item object replaced by its fields. */
  ghost predicate Reports(r: Result<Item>, res: Result<ItemData>)
    reads if r.Ok? then {r.value} else {}
  {
    match r
    case Ok(it) => res == Ok(it.Data())
    case Err(e) => res == Err(e)
  }

  class Repo {
    var boards: map<string, Board>

    /** Every item object filed in some board. */
    ghost function Items(): set<Item>
      reads this, boards.Values
    {
      set id, k | id in boards && k in boards[id].items :: boards[id].items[k]
    }

    /** The registry's contents as values. */
    ghost function View(): Store
      reads this, boards.Values, Items()
    {
      map id | id in boards :: boards[id].Data()
    }

    /** The store's invariant: its contents are well formed, and no item object is filed
        twice, so a write through one item reference changes one entry only. */
    ghost predicate Valid()
      reads this, boards.Values, Items()
    {
      && (forall id | id in boards :: boards[id].id == id && boards[id].Valid())
      && (forall id1, id2 | id1 in boards && id2 in boards && id1 != id2 ::
            boards[id1].items.Values !! boards[id2].items.Values)
    }

    /** NewMemoryRepo: an empty registry. */
    constructor ()
      ensures boards == map[] && Valid() && View() == map[]
    {
      boards := map[];
    }

    /** The object invariant is the value-level one. */
    lemma ValidViewWellFormed()
      requires Valid()
      ensures WellFormed(View())
    {
    }

    /** CreateBoard: a fresh board under an id not yet registered. */
    method CreateBoard() returns (b: Board)
      requires Valid()
      modifies this
      ensures Valid() && fresh(b)
      ensures b.id !in old(boards) && boards == old(boards)[b.id := b]
      ensures (b.Data(), View()) == BoardStore.CreateBoard(old(View()), b.id)
    {
      FreshIds.FreshIdExists(boards.Keys);
      var id: string :| id !in boards;
      b := new Board(id);
      boards := boards[id := b];
      BoardRegistered(b);
    }

    /** GetBoard: the registered board object itself, or "board_not_found". */
    function GetBoard(id: string): (r: Result<Board>)
      reads this
      ensures r.Ok? <==> id in boards
      ensures r.Ok? ==> r.value == boards[id]
      ensures r.Err? ==> r.error == BoardNotFound
    {
      if id in boards then Ok(boards[id]) else Err(BoardNotFound)
    }

    /** GetItem: the item object filed under `itemId` in `b`, or "item_not_found". */
    function GetItem(b: Board, itemId: string): (r: Result<Item>)
      reads b
      ensures r.Ok? <==> itemId in b.items
      ensures r.Ok? ==> r.value == b.items[itemId]
      ensures r.Err? ==> r.error == ItemNotFound
    {
      if itemId in b.items then Ok(b.items[itemId]) else Err(ItemNotFound)
    }

    /** UpdateBoard: the update protocol. The board version goes up by exactly one and the
        changed item, when there is one, is stamped with the new version; nothing else
        changes. */
    method UpdateBoard(b: Board, it: Item?)
      modifies b`version, (if it == null then {} else {it})`version
      ensures b.version == old(b.version) + 1
      ensures it != null ==> it.version == b.version
    {
      b.version := b.version + 1;
      if it != null {
        it.version := b.version;
      }
    }

    /** CreateItem: a copy of the draft, under a fresh id, filed in the board and run through
        the update protocol. The draft itself is left alone. */
    method CreateItem(boardId: string, draft: Item) returns (r: Result<Item>)
      requires Valid()
      modifies if boardId in boards then {boards[boardId]} else {}
      ensures Valid() && boards == old(boards) && unchanged(draft)
      ensures r.Ok? ==>
        && fresh(r.value)
        && boardId in boards
        && r.value.id !in old(boards[boardId].items)
        && boards[boardId].items == old(boards[boardId].items)[r.value.id := r.value]
      ensures var step := BoardStore.CreateItem(old(View()), boardId, old(draft.Data()),
                                                if r.Ok? then r.value.id else "");
        Reports(r, step.0) && View() == step.1
    {
      ghost var d := draft.Data();
      var rb := GetBoard(boardId);
      if rb.Err? {
        return Err(rb.error);
      }
      var b := rb.value;
      FreshIds.FreshIdExists(b.items.Keys);
      var id: string :| id !in b.items;
      var it := new Item(draft.Data());
      it.id := id;
      b.items := b.items[id := it];
      UpdateBoard(b, it);
      r := Ok(it);
      ItemCreated(boardId, id, it, d);
    }

    /** UpdateItem: overwrite the stored item object from the draft, pin its id, and run the
        update protocol on it. The item keeps its key and its identity. */
    method UpdateItem(boardId: string, itemId: string, draft: Item?) returns (r: Result<Item>)
      requires Valid()
      modifies if boardId in boards then {boards[boardId]} else {}
      modifies if boardId in boards && itemId in boards[boardId].items
               then {boards[boardId].items[itemId]} else {}
      ensures Valid() && boards == old(boards)
      ensures boardId in boards ==> boards[boardId].items == old(boards[boardId].items)
      ensures r.Ok? ==> boardId in boards && itemId in boards[boardId].items
                        && r.value == boards[boardId].items[itemId]
      ensures var step := BoardStore.UpdateItem(old(View()), boardId, itemId,
                                                if draft == null then None else Some(old(draft.Data())));
        Reports(r, step.0) && View() == step.1
    {
      var rb := GetBoard(boardId);
      if rb.Err? {
        return Err(rb.error);
      }
      var b := rb.value;
      var ri := GetItem(b, itemId);
      if ri.Err? {
        return Err(ri.error);
      }
      var stored := ri.value;
      if draft == null {
        return Err(InputError);
      }
      stored.CopyFrom(draft);
      // No hijacking: the item keeps the id it is filed under.
      stored.id := itemId;
      UpdateBoard(b, stored);
      r := Ok(stored);
      ItemOverwritten(boardId, itemId, old(draft.Data()));
    }

    /** A write confined to the board filed under `boardId`: no other board changed, no item
        outside that board changed, and the board now holds only its own items and new ones.
        Then the store is valid again once that board is, and only that board's contents
        changed. */
    twostate lemma ConfinedWrite(boardId: string)
      requires old(Valid())
      requires boards == old(boards) && boardId in boards
      requires forall id | id in boards && id != boardId :: unchanged(boards[id])
      requires unchanged(old(Items()) - old(boards[boardId].items.Values))
      requires forall x | x in boards[boardId].items.Values ::
                 x in old(boards[boardId].items.Values) || fresh(x)
      requires boards[boardId].id == boardId && boards[boardId].Valid()
      ensures Valid()
      ensures View() == old(View())[boardId := boards[boardId].Data()]
    {
      OtherBoardsKept(boardId);
      ItemsStayDisjoint(boardId);
    }

    /** Under a write confined to one board, every other board keeps its contents and its
        validity. */
    twostate lemma OtherBoardsKept(new boardId: string)
      requires old(Valid())
      requires boards == old(boards) && boardId in boards
      requires forall id | id in boards && id != boardId :: unchanged(boards[id])
      requires unchanged(old(Items()) - old(boards[boardId].items.Values))
      ensures forall other | other in boards && other != boardId ::
                boards[other].Data() == old(boards[other].Data()) && boards[other].Valid()
    {
      var b := boards[boardId];
      forall other | other in boards && other != boardId
        ensures boards[other].Data() == old(boards[other].Data()) && boards[other].Valid()
      {
        var o := boards[other];
        forall x | x in o.items.Values
          ensures unchanged(x)
        {
          assert old(o.items.Values !! b.items.Values);
          assert x in old(Items()) - old(b.items.Values);
        }
        BoardDataUnchanged(o);
      }
    }

    /** Under a write confined to one board, whose new items are its old ones or fresh, no
        item object comes to be filed in two boards. */
    twostate lemma ItemsStayDisjoint(new boardId: string)
      requires old(Valid())
      requires boards == old(boards) && boardId in boards
      requires forall id | id in boards && id != boardId :: unchanged(boards[id])
      requires forall x | x in boards[boardId].items.Values ::
                 x in old(boards[boardId].items.Values) || fresh(x)
      ensures forall id1, id2 | id1 in boards && id2 in boards && id1 != id2 ::
                boards[id1].items.Values !! boards[id2].items.Values
    {
      var b := boards[boardId];
      forall id1, id2 | id1 in boards && id2 in boards && id1 != id2
        ensures boards[id1].items.Values !! boards[id2].items.Values
      {
        var o1, o2 := boards[id1], boards[id2];
        assert old(o1.items.Values !! o2.items.Values);
        if id1 == boardId {
          assert o2.items == old(o2.items);
        } else if id2 == boardId {
          assert o1.items == old(o1.items);
        } else {
          assert o1.items == old(o1.items) && o2.items == old(o2.items);
        }
      }
    }

    /** The step of CreateBoard after the new board is registered: the store is valid and
        its contents are those BoardStore.CreateBoard gives. */
    twostate lemma BoardRegistered(new b: Board)
      requires old(Valid()) && fresh(b)
      requires b.id !in old(boards) && boards == old(boards)[b.id := b]
      requires b.items == map[] && b.version == 0
      requires unchanged(old(boards.Values)) && unchanged(old(Items()))
      ensures Valid()
      ensures (b.Data(), View()) == BoardStore.CreateBoard(old(View()), b.id)
    {
      assert b.Data() == BoardData(b.id, map[], 0);
      forall other | other in old(boards)
        ensures View()[other] == old(View())[other] && boards[other].Valid()
      {
        var o := boards[other];
        assert o == old(boards[other]);
        assert o.items.Values <= old(Items());
        BoardDataUnchanged(o);
      }
      assert View() == old(View())[b.id := b.Data()];
      forall id1, id2 | id1 in boards && id2 in boards && id1 != id2
        ensures boards[id1].items.Values !! boards[id2].items.Values
      {
        if id1 != b.id && id2 != b.id {
          assert old(boards[id1].items.Values !! boards[id2].items.Values);
        }
      }
    }

    /** The step of CreateItem after the fresh item `it` is filed under `id` and stamped: the
        store is valid and its contents and the result are those BoardStore.CreateItem
        gives. */
    twostate lemma ItemCreated(new boardId: string, new id: string, new it: Item, new d: ItemData)
      requires old(Valid())
      requires boards == old(boards)
      requires boardId in boards
      requires fresh(it)
      requires id !in old(boards[boardId].items)
      requires forall other | other in boards && other != boardId :: unchanged(boards[other])
      requires unchanged(old(Items()))
      requires boards[boardId].items == old(boards[boardId].items)[id := it]
      requires boards[boardId].version == old(boards[boardId].version) + 1
      requires it.Data() == d.(id := id, version := boards[boardId].version)
      ensures Valid()
      ensures BoardStore.CreateItem(old(View()), boardId, d, id) == (Ok(it.Data()), View())
    {
      var b := boards[boardId];
      var b0 := old(b.Data());
      var b1 := BoardStore.UpdateBoard(b0.(items := b0.items[id := d.(id := id)]), id);
      forall k | k in b.items
        ensures b.items[k].Data() == b1.items[k]
      {
        if k != id {
          assert b.items[k] == old(b.items[k]) && b.items[k] in old(Items());
        }
      }
      assert b.Data() == b1;
      assert b.Valid();
      InsertValues(old(b.items), id, it);
      ConfinedWrite(boardId);
    }

    /** The step of UpdateItem after the stored item is overwritten and stamped: the store is
        valid and its contents and the result are those BoardStore.UpdateItem gives. */
    twostate lemma ItemOverwritten(new boardId: string, new itemId: string, new d: ItemData)
      requires old(Valid()) && boards == old(boards) && boardId in boards
      requires itemId in old(boards[boardId].items)
      requires forall id | id in boards :: boards[id].items == old(boards[id].items)
      requires forall other | other in boards && other != boardId :: unchanged(boards[other])
      requires boards[boardId].version == old(boards[boardId].version) + 1
      requires unchanged(old(Items()) - {boards[boardId].items[itemId]})
      requires boards[boardId].items[itemId].Data() == d.(id := itemId, version := boards[boardId].version)
      ensures Valid()
      ensures BoardStore.UpdateItem(old(View()), boardId, itemId, Some(d))
           == (Ok(boards[boardId].items[itemId].Data()), View())
    {
      var b := boards[boardId];
      var stored := b.items[itemId];
      var b0 := old(b.Data());
      var b1 := BoardStore.UpdateBoard(b0.(items := b0.items[itemId := d.(id := itemId)]), itemId);
      forall k | k in b.items
        ensures b.items[k].Data() == b1.items[k]
      {
        if k != itemId {
          assert old(b.items[k].id) == k;
          assert b.items[k] != stored && b.items[k] in old(Items());
        }
      }
      assert b.Data() == b1;
      assert b.Valid();
      ConfinedWrite(boardId);
    }
  }
}
