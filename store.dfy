/** The board store as values: what a board registry holds and what each write does to it.
    The imperative store in MemoryRepo is proved to follow these functions, and the lemmas
    here and in History say what the functions promise. */
module BoardStore {

  /** The geometry fields are float32 values that the store copies and never computes on,
      so any type with equality serves; integers are used. */
  type Geometry = int

  /** The three errors the store reports: "board_not_found", "item_not_found", "input_error". */
  datatype Error = BoardNotFound | ItemNotFound | InputError

  datatype Option<T> = None | Some(value: T)

  /** An operation either succeeds with a value or fails with one of the store's errors. */
  datatype Result<T> = Ok(value: T) | Err(error: Error)

  /** The fields of an item. `version` is the board version of the item's last write. */
  datatype ItemData = ItemData(
    version: nat,
    id: string,
    text: string,
    color: string,
    left: Geometry,
    top: Geometry,
    width: Geometry,
    height: Geometry)

  /** The fields of a board: its id, its items by id and its version counter. */
  datatype BoardData = BoardData(id: string, items: map<string, ItemData>, version: nat)

  /** The registry: boards by id. */
  type Store = map<string, BoardData>

  /** The fields a client edits: everything but the id and the version stamp. */
  predicate SameContent(a: ItemData, b: ItemData) {
    && a.text == b.text
    && a.color == b.color
    && a.left == b.left
    && a.top == b.top
    && a.width == b.width
    && a.height == b.height
  }

  /** A board filed under `id` carries that id; each item is filed under its own id and is
      stamped with no version newer than the board's. */
  predicate BoardWellFormed(id: string, b: BoardData) {
    && b.id == id
    && forall k | k in b.items :: b.items[k].id == k && b.items[k].version <= b.version
  }

  predicate WellFormed(s: Store) {
    forall id | id in s :: BoardWellFormed(id, s[id])
  }

  /** CreateBoard: a new board with no items at version 0, registered under its own id;
      every board already registered is left as it was. */
  function CreateBoard(s: Store, id: string): (r: (BoardData, Store))
    requires id !in s
    ensures r.0.id == id && r.0.items == map[] && r.0.version == 0
    ensures r.1.Keys == s.Keys + {id} && r.1[id] == r.0
    ensures forall other | other in s :: r.1[other] == s[other]
    ensures WellFormed(s) ==> WellFormed(r.1)
  {
    var b := BoardData(id, map[], 0);
    (b, s[id := b])
  }

  /** UpdateBoard with the item filed under `key` as the changed item: the version goes up by
      exactly one, that item is stamped with the new version, and nothing else changes. */
  function UpdateBoard(b: BoardData, key: string): (r: BoardData)
    requires key in b.items
    ensures r.id == b.id && r.version == b.version + 1
    ensures r.items.Keys == b.items.Keys
    ensures r.items[key] == b.items[key].(version := r.version)
    ensures forall k | k in b.items && k != key :: r.items[k] == b.items[k]
  {
    var v := b.version + 1;
    b.(version := v, items := b.items[key := b.items[key].(version := v)])
  }

  /** CreateItem: copy the draft under the id `newId` chosen for it, file it in the board and
      run the update protocol on it. `newId` stands for the random id the store draws; were it
      already a key, the store would overwrite that item, and so does this function. */
  function CreateItem(s: Store, boardId: string, draft: ItemData, newId: string): (r: (Result<ItemData>, Store))
    ensures r.1.Keys == s.Keys
    ensures boardId !in s ==> r == (Err(BoardNotFound), s)
    ensures boardId in s ==>
      var b, b' := s[boardId], r.1[boardId];
      && r.0.Ok?
      && r.0.value.id == newId
      && SameContent(r.0.value, draft)
      && r.0.value.version == b.version + 1
      && b'.id == b.id
      && b'.version == b.version + 1
      && b'.items.Keys == b.items.Keys + {newId}
      && b'.items[newId] == r.0.value
      && (forall k | k in b.items && k != newId :: b'.items[k] == b.items[k])
      && (forall other | other in s && other != boardId :: r.1[other] == s[other])
    ensures boardId in s && newId !in s[boardId].items ==>
      |r.1[boardId].items| == |s[boardId].items| + 1
    ensures WellFormed(s) ==> WellFormed(r.1)
  {
    if boardId !in s then
      (Err(BoardNotFound), s)
    else
      var b := s[boardId];
      var inserted := b.(items := b.items[newId := draft.(id := newId)]);
      var b' := UpdateBoard(inserted, newId);
      (Ok(b'.items[newId]), s[boardId := b'])
  }

  /** UpdateItem: overwrite the stored item from the draft but keep its id, then run the
      update protocol on it. Errors are checked in the order board, item, draft; a failed
      call changes nothing. */
  function UpdateItem(s: Store, boardId: string, itemId: string, draft: Option<ItemData>): (r: (Result<ItemData>, Store))
    ensures r.1.Keys == s.Keys
    ensures boardId !in s ==> r == (Err(BoardNotFound), s)
    ensures boardId in s && itemId !in s[boardId].items ==> r == (Err(ItemNotFound), s)
    ensures boardId in s && itemId in s[boardId].items && draft.None? ==> r == (Err(InputError), s)
    ensures r.0.Ok? <==> boardId in s && itemId in s[boardId].items && draft.Some?
    ensures r.0.Ok? ==>
      var b, b' := s[boardId], r.1[boardId];
      && r.0.value.id == itemId
      && SameContent(r.0.value, draft.value)
      && r.0.value.version == b.version + 1
      && b'.id == b.id
      && b'.version == b.version + 1
      && b'.items.Keys == b.items.Keys
      && b'.items[itemId] == r.0.value
      && (forall k | k in b.items && k != itemId :: b'.items[k] == b.items[k])
      && (forall other | other in s && other != boardId :: r.1[other] == s[other])
    ensures WellFormed(s) ==> WellFormed(r.1)
  {
    if boardId !in s then
      (Err(BoardNotFound), s)
    else if itemId !in s[boardId].items then
      (Err(ItemNotFound), s)
    else if draft.None? then
      (Err(InputError), s)
    else
      var b := s[boardId];
      var b' := UpdateBoard(b.(items := b.items[itemId := draft.value.(id := itemId)]), itemId);
      (Ok(b'.items[itemId]), s[boardId := b'])
  }
}
