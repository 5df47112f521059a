/** Some places of a list, picked in order. */
module Picking {
  /** The places ascend, and lie below `bound`. */
  ghost predicate Ascending(at: seq<nat>, bound: nat) {
    && (forall i, j | 0 <= i < j < |at| :: at[i] < at[j])
    && forall i | 0 <= i < |at| :: at[i] < bound
  }

  /** Every wanted place was picked. */
  ghost predicate Covers(at: seq<nat>, wanted: set<nat>) {
    forall i | i in wanted :: exists k :: 0 <= k < |at| && at[k] == i
  }

  lemma AscendingMore(at: seq<nat>, bound: nat)
    requires Ascending(at, bound)
    ensures Ascending(at, bound + 1) && Ascending(at + [bound], bound + 1)
  {
  }

  lemma CoversMore(at: seq<nat>, wanted: set<nat>, more: seq<nat>, one: nat, all: set<nat>)
    requires Covers(at, wanted) && at <= more && all <= wanted + {one}
    requires one in all ==> exists k :: 0 <= k < |more| && more[k] == one
    ensures Covers(more, all)
  {
    forall i | i in all
      ensures exists k :: 0 <= k < |more| && more[k] == i
    {
      if i in wanted {
        var k :| 0 <= k < |at| && at[k] == i;
        assert more[k] == i;
      }
    }
  }

  /** The next place is picked, or passed over. */
  lemma PickMore(at: seq<nat>, wanted: set<nat>, next: nat, all: set<nat>)
    requires Ascending(at, next) && Covers(at, wanted) && all <= wanted + {next}
    ensures Ascending(at + [next], next + 1) && Covers(at + [next], all)
    ensures next !in all ==> Ascending(at, next + 1) && Covers(at, all)
  {
    var more := at + [next];
    AscendingMore(at, next);
    assert more[|at|] == next;
    CoversMore(at, wanted, more, next, all);
    if next !in all {
      CoversMore(at, wanted, at, next, all);
    }
  }
}
