/** The store used by a client the way its callers use it: a board is created, an item is
    created on it and then overwritten, and the failures a client can provoke are reported. */
module Scenarios {
  import opened BoardStore
  import opened MemoryRepo

  /** A new store with one new board holding one item, created from the draft `d`: the item
      takes all of the draft's content and is at version 1, as is the board. */
  method BoardWithItem(d: ItemData) returns (repo: Repo, b: Board, created: ItemData)
    ensures fresh(repo) && fresh(b) && created.id in b.items && fresh(b.items[created.id])
    ensures repo.Valid() && b.id in repo.boards && repo.boards[b.id] == b
    ensures created.id in repo.View()[b.id].items && repo.View()[b.id].version == 1
    ensures created.version == 1 && SameContent(created, d)
    ensures repo.View()[b.id].items[created.id] == created
  {
    repo := new Repo();
    b := repo.CreateBoard();
    var draft := new Item(d);
    ghost var v0 := repo.View();
    assert b.id in v0 && v0[b.id].version == 0;
    var rc := repo.CreateItem(b.id, draft);
    assert rc.Ok?;
    created := rc.value.Data();
  }

  /** Create an item on a new board from a draft that carries its own id "foo": the created
      item is at version 1 and has the draft's text, colour and geometry. */
  method CreateOnNewBoard() returns (created: ItemData)
    ensures created.version == 1 && created.text == "bar" && created.color == "red"
    ensures created.left == 0 && created.top == 1 && created.width == 2 && created.height == 3
  {
    var repo, b;
    repo, b, created := BoardWithItem(ItemData(0, "foo", "bar", "red", 0, 1, 2, 3));
  }

  /** Create a board and an item with text "foo", then overwrite it with text "bar": the
      created item is at version 1, the overwritten one keeps its id and is at version 2, and a
      later lookup finds the overwritten item. */
  method CreateThenUpdate() returns (created: ItemData, updated: ItemData, found: bool)
    ensures created.version == 1 && created.text == "foo" && created.color == "red"
    ensures updated.id == created.id && updated.version == 2
    ensures updated.text == "bar" && updated.color == "green"
    ensures updated.left == 4 && updated.top == 5 && updated.width == 6 && updated.height == 7
    ensures found
  {
    var repo, b;
    repo, b, created := BoardWithItem(ItemData(0, "", "foo", "red", 0, 1, 2, 3));
    ghost var v1 := repo.View();
    var d := ItemData(1, "", "bar", "green", 4, 5, 6, 7);
    var updateInput := new Item(d);
    var ru := repo.UpdateItem(b.id, created.id, updateInput);
    ghost var step := BoardStore.UpdateItem(v1, b.id, created.id, Some(d));
    assert step.0.Ok? && ru.Ok? && ru.value.Data() == step.0.value;
    updated := ru.value.Data();
    assert SameContent(updated, d);
    var rg := repo.GetItem(b, updated.id);
    found := rg.Ok? && rg.value == ru.value;
  }

  /** Every write against an empty store fails with "board_not_found". */
  method WritesOnMissingBoard(boardId: string, itemId: string) returns (e1: Error, e2: Error)
    ensures e1 == BoardNotFound && e2 == BoardNotFound
  {
    var repo := new Repo();
    var draft := new Item(ItemData(0, "", "foo", "red", 0, 1, 2, 3));
    var r1 := repo.CreateItem(boardId, draft);
    var r2 := repo.UpdateItem(boardId, itemId, draft);
    e1 := if r1.Err? then r1.error else InputError;
    e2 := if r2.Err? then r2.error else InputError;
  }
}
