# retro-board in-memory store, modelled in Dafny

retro-board is a collaborative retrospective board service. Its store, `memoryRepo` in
`repo.go`, keeps a registry of boards. Each board holds items by id and a version counter. Every
successful item write runs the update protocol (`UpdateBoard`): the board version goes up by
exactly one, and the written item is stamped with the new version, so a client can tell what
changed since the version it last saw.

The project has five modules:

- `BoardStore` (store.dfy) — the store as values. Boards and items are datatypes, and
  `CreateBoard`, `CreateItem` and `UpdateItem` are functions from a store to a result and a new
  store. Their contracts state each success and error case. Well-formedness is an invariant:
  every item is filed under its own id and is stamped with no version newer than its board's.
- `History` (history.dfy) — runs of writes. A board's version after any run equals its version
  before plus the number of successful writes on it. Versions never decrease, items are never
  lost and well-formedness is kept.
- `FreshIds` (fresh_ids.dfy) — an identifier not yet in use always exists.
- `MemoryRepo` (repo.dfy) — the store as the Go code keeps it. `Item`, `Board` and `Repo` are
  classes, because lookups hand out pointers to the stored objects and `UpdateItem` writes
  through such a pointer.
  - The writes `CreateBoard`, `CreateItem` and `UpdateItem` each say in their `ensures` what
    they do to the registry's objects, and that the registry's contents (`View()`) and their
    result are exactly what the `BoardStore` function of the same name gives.
  - Those three writes keep the object invariant `Valid()`. It is well-formedness plus "no item
    object is filed in two boards", which is what makes a write through one item pointer change
    one entry only.
  - The lookups return the stored objects themselves: `GetBoard` reads the registry and
    `GetItem` reads the board object it is given. They have no `BoardStore` counterpart.
  - `Repo.UpdateBoard` states the two fields it changes. It is not proved against
    `BoardStore.UpdateBoard`, which models only the case `CreateItem` and `UpdateItem` use, where
    the item is already filed in the board. `Repo.UpdateBoard` also takes a nil item or an item
    that is not on the board, as the repository's tests do.
- `Scenarios` (scenario.dfy) — the store used the way the repository's tests use it.

## Model

| member | source | states |
|---|---|---|
| BoardStore.CreateBoard | repo.go:36-46 | a new board has the given id, no items and version 0; it is registered under its id and every other board is kept; well-formedness is kept |
| BoardStore.UpdateBoard | repo.go:58-69 | the update protocol on a board: the version goes up by exactly one, the changed item gets the new version, the id, the keys and every other item are kept |
| BoardStore.CreateItem | repo.go:78-91 | an unknown board gives "board_not_found" and no change; otherwise the draft's content is filed under the new id with the id set to that key, at the board's old version plus one, the board's version goes up by one, and nothing else changes; a fresh id adds exactly one item; well-formedness is kept |
| BoardStore.UpdateItem | repo.go:103-129 | errors come in the order board, item, draft, and each leaves the store unchanged; it succeeds exactly when the board and the item exist and a draft is given; on success the stored item takes the draft's content but keeps its id (no hijacking), is stamped with the new version, the board's version goes up by one, the keys are kept and nothing else changes; well-formedness is kept |
| History.RunKeepsBoards | repo.go:78-129 | item writes neither register nor drop a board |
| History.RunCountsVersions | repo.go:58-69 | each successful write adds exactly one to its board's version: after any sequential run of writes, a board's version is its old version plus the number of successful writes on it |
| History.RunVersionsNeverDecrease | repo.go:58-69 | board versions never decrease over any run of writes |
| History.RunKeepsItems | repo.go:78-129 | no item id ever disappears from a board |
| History.RunPreservesWellFormed | repo.go:78-129 | every run keeps each item under its own id and no newer than its board's version |
| History.NewBoardVersionCountsWrites | repo.go:36-46 | a board created at version 0 is, after any run, at exactly the number of successful writes on it |
| FreshIds.LongerThanAll | repo.go:37 | every finite set of ids has a bound on their lengths |
| FreshIds.FreshIdExists | repo.go:84 | some id is always unused, so a new board or item can get a key not yet in use |
| MemoryRepo.Item.constructor | types.go:30-39 | an item holds exactly the given fields |
| MemoryRepo.Item.CopyFrom | repo.go:121 | assigning through a pointer copies every field of the source, even when the source is the same item |
| MemoryRepo.Board.constructor | repo.go:38-42 | a new board has the given id, no items and version 0 |
| MemoryRepo.Repo.constructor | repo.go:28-33 | a new store holds no boards and its contents are the empty store |
| MemoryRepo.Repo.ValidViewWellFormed | types.go:22-39 | the object invariant gives well-formedness of the contents |
| MemoryRepo.Repo.CreateBoard | repo.go:36-46 | a fresh board object is registered under an id not in use, and nothing else is touched; the contents change as BoardStore.CreateBoard says |
| MemoryRepo.Repo.GetBoard | repo.go:49-55 | it succeeds exactly when the id is registered, returns the registered board object itself, and otherwise reports "board_not_found" |
| MemoryRepo.Repo.GetItem | repo.go:94-100 | it succeeds exactly when the board holds the id, returns the stored item object itself, and otherwise reports "item_not_found" |
| MemoryRepo.Repo.UpdateBoard | repo.go:58-69 | the board version goes up by exactly one and a given item is stamped with the new version; only those two fields change |
| MemoryRepo.Repo.CreateItem | repo.go:78-91 | on a known board, a fresh item object is filed under a key not in use, and the draft object is left as it was; the result and the new contents are those of BoardStore.CreateItem, and the invariant is kept |
| MemoryRepo.Repo.UpdateItem | repo.go:103-129 | the stored item object is overwritten in place and stays under the same key in the same board; the returned object is the one a later GetItem finds; the result and the new contents are those of BoardStore.UpdateItem, and the invariant is kept |
| MemoryRepo.Repo.ConfinedWrite | repo.go:85-88 | a write confined to one board's items keeps the invariant and changes that board's contents only |
| MemoryRepo.Repo.OtherBoardsKept | repo.go:85-88 | under such a write every other board keeps its contents and validity |
| MemoryRepo.Repo.ItemsStayDisjoint | repo.go:85-88 | under such a write no item object comes to be filed in two boards |
| MemoryRepo.Repo.BoardRegistered | repo.go:44 | registering a fresh empty board gives the contents of BoardStore.CreateBoard and keeps the invariant |
| MemoryRepo.Repo.ItemCreated | repo.go:83-88 | filing a fresh copy of the draft and stamping it gives the result and contents of BoardStore.CreateItem |
| MemoryRepo.Repo.ItemOverwritten | repo.go:121-126 | overwriting the stored item, pinning its id and stamping it gives the result and contents of BoardStore.UpdateItem |
| MemoryRepo.BoardDataUnchanged | types.go:22-27 | a board whose fields and items' fields are unchanged has unchanged contents and validity |
| MemoryRepo.InsertValues | repo.go:85 | filing a value under a key adds at most that value to a map's values |
| Scenarios.BoardWithItem | repo_test.go:79-91 | an item created on a new board from any draft takes all of the draft's content and is at version 1, as is the board; the item stored under its key is exactly the one returned |
| Scenarios.CreateOnNewBoard | repo_test.go:67-91 | an item created from a draft carrying its own id "foo" is at version 1 and has the draft's text, colour and all four geometry fields |
| Scenarios.CreateThenUpdate | repo_test.go:125-163 | an item created with text "foo" and then updated to "bar" keeps its id, takes all the update's fields, is at version 2, and is what a later GetItem returns |
| Scenarios.WritesOnMissingBoard | repo_test.go:165-167 | writes on a board that is not registered fail with "board_not_found" |

## Left out

- `GetBoardUpdates`, the per-board `sync.Cond` and `Mutex`, and the broadcast in `UpdateBoard`
  (repo.go:68, 71-75) are about blocking and waking concurrent callers; they are not modelled.
  As written, `GetBoardUpdates` also ignores its version argument.
- The atomic increment and store in `UpdateBoard` are modelled as plain updates. Concurrency
  between callers, including two writers on the same board, is not modelled. The source takes
  no lock around its map writes (repo.go:44, 85) or its item overwrite (repo.go:121), so
  concurrent writers could race there; the model's runs of writes are sequential.
- Board versions are `uint64` in the source; the model uses `nat`, so wrap-around after 2^64
  writes is not modelled.
- The geometry fields are `float32`; the store only copies them, so they are modelled as
  integers.
- `uuid.New()` is modelled as the choice of some id not already a key. The model does not
  capture that the ids are random 36-character strings. A uuid collision is not modelled in
  MemoryRepo; BoardStore.CreateItem, given an id already in use, overwrites as the Go map
  assignment would.
- The input check in UpdateItem follows the code: only a missing draft (`nil`) is rejected with
  "input_error". A draft whose fields are all empty is accepted and written, as the code does.
- MemoryRepo.Repo.CreateItem: the source never checks its draft for nil. On a registered board a
  nil draft panics at the copy (repo.go:83); on an unknown board `CreateItem` returns
  "board_not_found" before the draft is touched (repo.go:79-82). The model's draft is a non-null
  `Item`, so neither call is modelled. Its callers never pass nil.
- The HTTP handlers, JSON encoding, `main`, the mocks and the helpers are not part of this model.
