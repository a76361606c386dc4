/** Fresh identifiers.
    The store names boards and items with random UUIDs from a foreign library. The model
    only needs what the store relies on: that some identifier not yet in use can always be
    chosen. These lemmas show one exists for any finite set of identifiers in use. */
module FreshIds {

  /** A length strictly greater than the length of every identifier in `ids`. */
  lemma {:induction false} LongerThanAll(ids: set<string>) returns (n: nat)
    ensures forall id | id in ids :: |id| < n
    decreases ids
  {
    if ids == {} {
      n := 0;
    } else {
      var id :| id in ids;
      n := LongerThanAll(ids - {id});
      if n <= |id| {
        n := |id| + 1;
      }
    }
  }

  /** Some identifier is not in `ids`: the string of 'x's that is longer than all of them. */
  lemma FreshIdExists(ids: set<string>)
    ensures exists id: string :: id !in ids
  {
    var n := LongerThanAll(ids);
    var id := seq(n, _ => 'x');
    assert |id| == n;
    assert id !in ids;
  }
}
