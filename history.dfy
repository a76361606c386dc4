/** Runs of writes against the store. Every successful CreateItem or UpdateItem goes through
    the update protocol, which is the only place a board version moves: so a board's version
    grows by exactly the number of successful writes on it, never decreases, items are never
    lost, and the store stays well formed. */
module History {
  import opened BoardStore

  /** A write as the store receives it; `newId` is the id drawn for a created item. */
  datatype Write =
    | CreateItemWrite(boardId: string, draft: ItemData, newId: string)
    | UpdateItemWrite(boardId: string, itemId: string, update: Option<ItemData>)

  function Apply(s: Store, w: Write): (Result<ItemData>, Store) {
    match w
    case CreateItemWrite(boardId, draft, newId) => CreateItem(s, boardId, draft, newId)
    case UpdateItemWrite(boardId, itemId, update) => UpdateItem(s, boardId, itemId, update)
  }

  /** The store after the writes `ws`, one after the other. */
  function Run(s: Store, ws: seq<Write>): Store
    decreases |ws|
  {
    if ws == [] then s else Run(Apply(s, ws[0]).1, ws[1..])
  }

  /** How many of the writes `ws`, run from `s`, succeed on board `boardId`. */
  function Successes(s: Store, ws: seq<Write>, boardId: string): nat
    decreases |ws|
  {
    if ws == [] then 0
    else
      var step := Apply(s, ws[0]);
      (if step.0.Ok? && ws[0].boardId == boardId then 1 else 0) + Successes(step.1, ws[1..], boardId)
  }

  /** One write: the registry keeps its boards, the version of a board moves by one exactly
      when a write on it succeeds, no item disappears, and well-formedness is kept. */
  lemma ApplyStep(s: Store, w: Write, boardId: string)
    requires boardId in s
    ensures Apply(s, w).1.Keys == s.Keys
    ensures Apply(s, w).1[boardId].version
         == s[boardId].version + (if Apply(s, w).0.Ok? && w.boardId == boardId then 1 else 0)
    ensures s[boardId].items.Keys <= Apply(s, w).1[boardId].items.Keys
    ensures WellFormed(s) ==> WellFormed(Apply(s, w).1)
  {
  }

  /** A run registers no board and drops none. */
  lemma {:induction false} RunKeepsBoards(s: Store, ws: seq<Write>)
    ensures Run(s, ws).Keys == s.Keys
    decreases |ws|
  {
    if ws != [] {
      var w := ws[0];
      assert Apply(s, w).1.Keys == s.Keys by {
        match w
        case CreateItemWrite(_, _, _) =>
        case UpdateItemWrite(_, _, _) =>
      }
      RunKeepsBoards(Apply(s, w).1, ws[1..]);
    }
  }

  /** Each successful write adds exactly one to its board's version: a board's version after a
      run is its version before plus the number of writes on it that succeeded. */
  lemma {:induction false} RunCountsVersions(s: Store, ws: seq<Write>, boardId: string)
    requires boardId in s
    ensures boardId in Run(s, ws)
    ensures Run(s, ws)[boardId].version == s[boardId].version + Successes(s, ws, boardId)
    decreases |ws|
  {
    RunKeepsBoards(s, ws);
    if ws != [] {
      ApplyStep(s, ws[0], boardId);
      RunCountsVersions(Apply(s, ws[0]).1, ws[1..], boardId);
    }
  }

  /** Board versions never decrease. */
  lemma RunVersionsNeverDecrease(s: Store, ws: seq<Write>)
    ensures forall id | id in s :: id in Run(s, ws) && s[id].version <= Run(s, ws)[id].version
  {
    forall id | id in s
      ensures id in Run(s, ws) && s[id].version <= Run(s, ws)[id].version
    {
      RunCountsVersions(s, ws, id);
    }
  }

  /** Items are never deleted: every item id of a board is still there after a run. */
  lemma {:induction false} RunKeepsItems(s: Store, ws: seq<Write>, boardId: string)
    requires boardId in s
    ensures boardId in Run(s, ws)
    ensures s[boardId].items.Keys <= Run(s, ws)[boardId].items.Keys
    decreases |ws|
  {
    RunKeepsBoards(s, ws);
    if ws != [] {
      ApplyStep(s, ws[0], boardId);
      RunKeepsItems(Apply(s, ws[0]).1, ws[1..], boardId);
    }
  }

  /** Every run keeps the store well formed: item ids match their keys and no item is stamped
      with a version newer than its board's. */
  lemma {:induction false} RunPreservesWellFormed(s: Store, ws: seq<Write>)
    requires WellFormed(s)
    ensures WellFormed(Run(s, ws))
    decreases |ws|
  {
    if ws != [] {
      var w := ws[0];
      assert WellFormed(Apply(s, w).1) by {
        match w
        case CreateItemWrite(_, _, _) =>
        case UpdateItemWrite(_, _, _) =>
      }
      RunPreservesWellFormed(Apply(s, w).1, ws[1..]);
    }
  }

  /** A board created fresh has, after any run, exactly as many versions as successful
      writes on it. */
  lemma NewBoardVersionCountsWrites(s: Store, id: string, ws: seq<Write>)
    requires id !in s
    ensures var s0 := CreateBoard(s, id).1;
      id in Run(s0, ws) && Run(s0, ws)[id].version == Successes(s0, ws, id)
  {
    RunCountsVersions(CreateBoard(s, id).1, ws, id);
  }
}
