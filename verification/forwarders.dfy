/** The installation root's three fixed entries replaced by the new release's acforward, each
    previous entry kept. A file is its content; equal hashes are equal contents. */
module Forwarders {
  import opened Outcomes
  import opened Disks

  const ENTRIES: nat := 3

  datatype Path =
    | Entry(at: nat)
    | Part(at: nat)
    | Kept(generation: nat, at: nat)
    | Elsewhere(name: string)

  datatype File = Program(text: string) | Torn

  type Nodes = map<Path, File>

  predicate SameAt(before: Nodes, after: Nodes, path: Path) {
    (path in before <==> path in after) && (path in before ==> before[path] == after[path])
  }

  /** Entry `at` as it was, and nothing kept of it. */
  ghost predicate Untouched(before: Nodes, after: Nodes, generation: nat, at: nat) {
    SameAt(before, after, Entry(at)) && SameAt(before, after, Kept(generation, at))
  }

  /** The previous entry, which was not `wanted` already, is kept under a name that was free. */
  ghost predicate HeldAside(before: Nodes, after: Nodes, wanted: File, generation: nat, at: nat) {
    && Entry(at) in before && before[Entry(at)] != wanted
    && Kept(generation, at) !in before
    && Kept(generation, at) in after && after[Kept(generation, at)] == before[Entry(at)]
  }

  ghost predicate Replaced(before: Nodes, after: Nodes, wanted: File, generation: nat, at: nat) {
    HeldAside(before, after, wanted, generation, at) && Entry(at) in after && after[Entry(at)] == wanted
  }

  /** Moved aside and not placed again: what a failed restore, or a crash between the two renames,
      leaves. */
  ghost predicate Away(before: Nodes, after: Nodes, wanted: File, generation: nat, at: nat) {
    HeldAside(before, after, wanted, generation, at) && Entry(at) !in after
  }

  ghost predicate Accounted(before: Nodes, after: Nodes, wanted: File, generation: nat, at: nat) {
    || Untouched(before, after, generation, at)
    || Replaced(before, after, wanted, generation, at)
    || Away(before, after, wanted, generation, at)
  }

  /** Nothing that was there is lost: every entry is accounted for, and every other file, an
      unfinished copy of an earlier run among them, is as it was. */
  ghost predicate Conserved(before: Nodes, after: Nodes, wanted: File, generation: nat) {
    && (forall at: nat | at < ENTRIES :: Accounted(before, after, wanted, generation, at))
    && (forall path | path in before && !(path.Entry? && path.at < ENTRIES) ::
          path in after && after[path] == before[path])
  }

  /** So no content that was on disk is gone, whichever name it now has. */
  lemma NoBytesLost(before: Nodes, after: Nodes, wanted: File, generation: nat)
    requires Conserved(before, after, wanted, generation)
    ensures before.Values <= after.Values
  {
    forall path | path in before
      ensures before[path] in after.Values
    {
      if path.Entry? && path.at < ENTRIES {
        assert Accounted(before, after, wanted, generation, path.at);
        if Untouched(before, after, generation, path.at) {
          assert after[path] == before[path];
        } else {
          assert after[Kept(generation, path.at)] == before[path];
        }
      } else {
        assert after[path] == before[path];
      }
    }
  }

  /** The whole run so far, crashes included. */
  ghost predicate Custody(
    before: Nodes, after: Nodes, past: seq<Nodes>, mark: nat, wanted: File, generation: nat)
  {
    && Conserved(before, after, wanted, generation)
    && mark <= |past|
    && forall k | mark <= k < |past| :: Conserved(before, past[k], wanted, generation)
  }

  /** A step at one entry, its copy and its kept name. */
  ghost predicate OnlyAt(before: Nodes, after: Nodes, generation: nat, at: nat) {
    forall path | path !in {Entry(at), Part(at), Kept(generation, at)} :: SameAt(before, after, path)
  }

  lemma StepConserves(before: Nodes, middle: Nodes, after: Nodes, wanted: File, generation: nat, at: nat)
    requires Conserved(before, middle, wanted, generation) && OnlyAt(middle, after, generation, at)
    requires at < ENTRIES && Part(at) !in before && Accounted(before, after, wanted, generation, at)
    ensures Conserved(before, after, wanted, generation)
  {
    forall other: nat | other < ENTRIES
      ensures Accounted(before, after, wanted, generation, other)
    {
      if other != at {
        assert Accounted(before, middle, wanted, generation, other);
        assert SameAt(middle, after, Entry(other)) && SameAt(middle, after, Kept(generation, other));
      }
    }
    forall path | path in before && !(path.Entry? && path.at < ENTRIES)
      ensures path in after && after[path] == before[path]
    {
      if path != Kept(generation, at) {
        assert SameAt(middle, after, path);
      }
    }
  }

  lemma CustodyLonger(
    before: Nodes, middle: Nodes, seen: seq<Nodes>, after: Nodes, past: seq<Nodes>, mark: nat, wanted: File,
    generation: nat)
    requires Custody(before, middle, seen, mark, wanted, generation) && seen <= past
    requires Conserved(before, after, wanted, generation)
    requires forall k | |seen| <= k < |past| :: Conserved(before, past[k], wanted, generation)
    ensures Custody(before, after, past, mark, wanted, generation)
  {
    forall k | mark <= k < |past|
      ensures Conserved(before, past[k], wanted, generation)
    {
      if k < |seen| {
        assert past[k] == seen[k];
      }
    }
  }

  /** Entry `at` as a successful run leaves it. */
  ghost predicate Refreshed(before: Nodes, after: Nodes, wanted: File, generation: nat, at: nat) {
    || (Entry(at) in before && before[Entry(at)] == wanted && Untouched(before, after, generation, at))
    || Replaced(before, after, wanted, generation, at)
  }

  ghost predicate RefreshedBelow(before: Nodes, after: Nodes, wanted: File, generation: nat, to: nat) {
    forall at: nat | at < to :: Refreshed(before, after, wanted, generation, at)
  }

  /** From entry `from` on nothing was touched. */
  ghost predicate OriginalFrom(before: Nodes, after: Nodes, generation: nat, from: nat) {
    forall at: nat | from <= at < ENTRIES ::
      Untouched(before, after, generation, at) && SameAt(before, after, Part(at))
  }

  ghost predicate EntriesStand(before: Nodes, after: Nodes) {
    forall at: nat | at < ENTRIES && Entry(at) in before :: Entry(at) in after
  }

  lemma EntriesStillStand(before: Nodes, middle: Nodes, after: Nodes, generation: nat, at: nat, stand: bool)
    requires stand ==> EntriesStand(before, middle) && Entry(at) in after
    requires OnlyAt(middle, after, generation, at)
    ensures stand ==> EntriesStand(before, after)
  {
    forall other: nat | stand && other < ENTRIES && Entry(other) in before
      ensures Entry(other) in after
    {
      if other != at {
        assert SameAt(middle, after, Entry(other));
      }
    }
  }

  /** The entries that are not the wanted one. */
  ghost function Stale(before: Nodes, wanted: File, below: nat): set<nat> {
    set at: nat | at < below && Entry(at) in before && before[Entry(at)] != wanted
  }

  lemma StaleMore(before: Nodes, wanted: File, at: nat)
    requires Entry(at) in before
    ensures |Stale(before, wanted, at + 1)|
         == |Stale(before, wanted, at)| + if before[Entry(at)] != wanted then 1 else 0
  {
    if before[Entry(at)] != wanted {
      assert Stale(before, wanted, at + 1) == Stale(before, wanted, at) + {at};
    } else {
      assert Stale(before, wanted, at + 1) == Stale(before, wanted, at);
    }
  }

  /** Entry `at` is there, and beside it, unless it is the wanted one, nothing is in the way. */
  ghost predicate Refreshable(before: Nodes, wanted: File, generation: nat, at: nat) {
    && Entry(at) in before
    && (before[Entry(at)] != wanted ==> Part(at) !in before && Kept(generation, at) !in before)
  }

  ghost predicate RefreshableBelow(before: Nodes, wanted: File, generation: nat, below: nat) {
    forall at: nat | at < below :: Refreshable(before, wanted, generation, at)
  }

  /** A run that has come as far as entry `at`. */
  ghost predicate CameTo(before: Nodes, after: Nodes, wanted: File, generation: nat, at: nat) {
    && OriginalFrom(before, after, generation, at) && RefreshedBelow(before, after, wanted, generation, at)
    && RefreshableBelow(before, wanted, generation, at)
  }

  lemma OthersStay(before: Nodes, middle: Nodes, after: Nodes, wanted: File, generation: nat, at: nat)
    requires at < ENTRIES && OnlyAt(middle, after, generation, at)
    requires OriginalFrom(before, middle, generation, at)
    requires RefreshedBelow(before, middle, wanted, generation, at)
    ensures OriginalFrom(before, after, generation, at + 1)
    ensures RefreshedBelow(before, after, wanted, generation, at)
  {
    forall other: nat | other != at
      ensures SameAt(middle, after, Entry(other)) && SameAt(middle, after, Kept(generation, other))
      ensures SameAt(middle, after, Part(other))
    {
    }
    forall other: nat | other < at
      ensures Refreshed(before, after, wanted, generation, other)
    {
      assert Refreshed(before, middle, wanted, generation, other);
    }
    forall other: nat | at < other < ENTRIES
      ensures Untouched(before, after, generation, other) && SameAt(before, after, Part(other))
    {
      assert Untouched(before, middle, generation, other);
    }
  }

  lemma OnlyAtTwice(first: Nodes, second: Nodes, third: Nodes, generation: nat, at: nat)
    requires OnlyAt(first, second, generation, at) && OnlyAt(second, third, generation, at)
    ensures OnlyAt(first, third, generation, at)
  {
    forall path | path !in {Entry(at), Part(at), Kept(generation, at)}
      ensures SameAt(first, third, path)
    {
      assert SameAt(first, second, path) && SameAt(second, third, path);
    }
  }

  class Root {
    const disk: Disk<Path, File>

    constructor (disk: Disk<Path, File>)
      ensures this.disk == disk
    {
      this.disk := disk;
    }

    /** One rename of entry `at`'s files, which leaves the entry accounted for. */
    method Shift(
      source: Path, target: Path, at: nat, wanted: File, generation: nat, ghost before: Nodes, ghost mark: nat)
      returns (done: bool)
      requires at < ENTRIES && Part(at) !in before
      requires {source, target} <= {Entry(at), Part(at), Kept(generation, at)}
      requires Custody(before, disk.nodes, disk.past, mark, wanted, generation)
      requires source in disk.nodes ==>
                 Accounted(before, Moved(disk.nodes, source, target), wanted, generation, at)
      modifies disk
      ensures Custody(before, disk.nodes, disk.past, mark, wanted, generation) && old(disk.past) <= disk.past
      ensures done ==> source in old(disk.nodes) && disk.nodes == Moved(old(disk.nodes), source, target)
      ensures !done ==> disk.nodes == old(disk.nodes)
      ensures disk.denied
                == if done || source !in old(disk.nodes) then old(disk.denied) else old(disk.denied) + [Renaming(source, target)]
      ensures disk.movable && source in old(disk.nodes) ==> done
    {
      ghost var middle, seen := disk.nodes, disk.past;
      done := disk.Rename(source, target);
      if done {
        StepConserves(before, middle, disk.nodes, wanted, generation, at);
        CustodyLonger(before, middle, seen, disk.nodes, disk.past, mark, wanted, generation);
      }
    }

    /** This run's own unfinished copy removed, if it can be. */
    method Discard(at: nat, wanted: File, generation: nat, ghost before: Nodes, ghost mark: nat)
      requires at < ENTRIES && Part(at) !in before
      requires Custody(before, disk.nodes, disk.past, mark, wanted, generation)
      modifies disk
      ensures Custody(before, disk.nodes, disk.past, mark, wanted, generation) && old(disk.past) <= disk.past
      ensures disk.nodes == old(disk.nodes) || disk.nodes == old(disk.nodes) - {Part(at)}
      ensures old(disk.denied) <= disk.denied
      ensures Part(at) in disk.nodes ==> Tried(old(disk.denied), disk.denied, Removing(Part(at)))
      ensures disk.reliable ==> Part(at) !in disk.nodes
    {
      ghost var middle, seen := disk.nodes, disk.past;
      var _ := disk.Remove(Part(at));
      assert Accounted(before, middle, wanted, generation, at);
      StepConserves(before, middle, disk.nodes, wanted, generation, at);
      CustodyLonger(before, middle, seen, disk.nodes, disk.past, mark, wanted, generation);
    }

    /** The new bytes beside the entry, checked, as `<name>.acsetup-new`. */
    method CopyIn(at: nat, source: File, wanted: File, generation: nat, ghost before: Nodes, ghost mark: nat)
      returns (copied: bool)
      requires at < ENTRIES && Part(at) !in before
      requires Custody(before, disk.nodes, disk.past, mark, wanted, generation)
      modifies disk
      ensures Custody(before, disk.nodes, disk.past, mark, wanted, generation) && old(disk.past) <= disk.past
      ensures OnlyAt(old(disk.nodes), disk.nodes, generation, at)
      ensures SameAt(old(disk.nodes), disk.nodes, Entry(at))
      ensures SameAt(old(disk.nodes), disk.nodes, Kept(generation, at))
      ensures copied ==> Part(at) in disk.nodes && disk.nodes[Part(at)] == wanted
      ensures disk.reliable && Part(at) !in old(disk.nodes) ==>
                (copied <==> source == wanted) && (!copied ==> Part(at) !in disk.nodes)
    {
      ghost var middle, seen := disk.nodes, disk.past;
      copied := disk.WriteNew(Part(at), source, Torn);
      assert Accounted(before, middle, wanted, generation, at);
      forall state | state == disk.nodes || Unfinished(middle, Part(at), Torn, state)
        ensures Conserved(before, state, wanted, generation)
      {
        StepConserves(before, middle, state, wanted, generation, at);
      }
      CustodyLonger(before, middle, seen, disk.nodes, disk.past, mark, wanted, generation);
      if copied {
        var written := disk.Read(Part(at));
        if written.None? {
          copied := false;
        } else if written.value != wanted {
          Discard(at, wanted, generation, before, mark);
          copied := false;
        }
      }
    }

    /** The entry moved to its kept name, when nothing is seen there. */
    method MoveAside(at: nat, wanted: File, generation: nat, ghost before: Nodes, ghost mark: nat)
      returns (aside: bool)
      requires at < ENTRIES && Part(at) !in before
      requires Custody(before, disk.nodes, disk.past, mark, wanted, generation)
      requires Untouched(before, disk.nodes, generation, at)
      requires Entry(at) in before && before[Entry(at)] != wanted
      modifies disk
      ensures Custody(before, disk.nodes, disk.past, mark, wanted, generation) && old(disk.past) <= disk.past
      ensures !aside ==> disk.nodes == old(disk.nodes)
      ensures aside ==>
                && Kept(generation, at) !in old(disk.nodes)
                && disk.nodes == Moved(old(disk.nodes), Entry(at), Kept(generation, at))
      ensures disk.movable ==> (aside <==> Kept(generation, at) !in old(disk.nodes))
      ensures OnlyAt(old(disk.nodes), disk.nodes, generation, at)
      ensures old(disk.denied) <= disk.denied
    {
      var presence := disk.Inspect(Kept(generation, at));
      aside := false;
      if presence == Missing {
        aside := Shift(Entry(at), Kept(generation, at), at, wanted, generation, before, mark);
      }
    }

    /** The copy into the place the entry left; the entry back when it does not go in. */
    method PutIn(at: nat, wanted: File, generation: nat, ghost before: Nodes, ghost mark: nat) returns (placed: bool)
      requires at < ENTRIES && Part(at) !in before
      requires Custody(before, disk.nodes, disk.past, mark, wanted, generation)
      requires Away(before, disk.nodes, wanted, generation, at)
      requires Part(at) in disk.nodes && disk.nodes[Part(at)] == wanted
      modifies disk
      ensures Custody(before, disk.nodes, disk.past, mark, wanted, generation) && old(disk.past) <= disk.past
      ensures OnlyAt(old(disk.nodes), disk.nodes, generation, at)
      ensures placed ==> Replaced(before, disk.nodes, wanted, generation, at) && Part(at) !in disk.nodes
      ensures !placed ==> SameAt(before, disk.nodes, Entry(at)) || disk.nodes == old(disk.nodes)
      ensures !placed && Entry(at) in disk.nodes ==> Untouched(before, disk.nodes, generation, at)
      ensures !placed && Entry(at) !in disk.nodes ==>
                Tried(old(disk.denied), disk.denied, Renaming(Kept(generation, at), Entry(at)))
      ensures disk.movable ==> placed
      ensures old(disk.denied) <= disk.denied
    {
      placed := Shift(Part(at), Entry(at), at, wanted, generation, before, mark);
      if !placed {
        ghost var denied := disk.denied;
        var back := Shift(Kept(generation, at), Entry(at), at, wanted, generation, before, mark);
        if !back {
          TriedBetween(old(disk.denied), denied, disk.denied, disk.denied, Renaming(Kept(generation, at), Entry(at)));
        }
      }
    }

    /** The entry aside, then the copy in its place; the entry back when the copy does not go in. */
    method Place(at: nat, wanted: File, generation: nat, ghost before: Nodes, ghost mark: nat)
      returns (placed: bool)
      requires at < ENTRIES && Part(at) !in before
      requires Custody(before, disk.nodes, disk.past, mark, wanted, generation)
      requires Untouched(before, disk.nodes, generation, at)
      requires Entry(at) in before && before[Entry(at)] != wanted
      requires Part(at) in disk.nodes && disk.nodes[Part(at)] == wanted
      modifies disk
      ensures Custody(before, disk.nodes, disk.past, mark, wanted, generation) && old(disk.past) <= disk.past
      ensures OnlyAt(old(disk.nodes), disk.nodes, generation, at)
      ensures placed ==> Replaced(before, disk.nodes, wanted, generation, at)
      ensures !placed ==>
                || Untouched(before, disk.nodes, generation, at)
                || (&& Away(before, disk.nodes, wanted, generation, at)
                    && Tried(old(disk.denied), disk.denied, Renaming(Kept(generation, at), Entry(at))))
      ensures Part(at) in disk.nodes ==> Tried(old(disk.denied), disk.denied, Removing(Part(at)))
      ensures disk.movable ==> (placed <==> Kept(generation, at) !in old(disk.nodes))
      ensures disk.movable && !placed ==> Untouched(before, disk.nodes, generation, at)
    {
      placed := MoveAside(at, wanted, generation, before, mark);
      ghost var first, moved := disk.denied, disk.nodes;
      if placed {
        placed := PutIn(at, wanted, generation, before, mark);
        OnlyAtTwice(old(disk.nodes), moved, disk.nodes, generation, at);
      }
      if !placed {
        ghost var second, ready := disk.denied, disk.nodes;
        Discard(at, wanted, generation, before, mark);
        OnlyAtTwice(old(disk.nodes), ready, disk.nodes, generation, at);
        if Entry(at) !in disk.nodes {
          TriedBetween(old(disk.denied), first, second, disk.denied, Renaming(Kept(generation, at), Entry(at)));
        }
        if Part(at) in disk.nodes {
          TriedBetween(old(disk.denied), second, disk.denied, disk.denied, Removing(Part(at)));
        }
      }
    }

    /** One entry: as it is when it is the wanted one already, else replaced. */
    method RefreshEntry(at: nat, wanted: File, generation: nat, ghost before: Nodes, ghost mark: nat)
      returns (ok: bool, replaced: bool)
      requires at < ENTRIES && Custody(before, disk.nodes, disk.past, mark, wanted, generation)
      requires CameTo(before, disk.nodes, wanted, generation, at)
      requires disk.movable ==> EntriesStand(before, disk.nodes)
      modifies disk
      ensures Custody(before, disk.nodes, disk.past, mark, wanted, generation) && old(disk.past) <= disk.past
      ensures disk.movable ==> EntriesStand(before, disk.nodes)
      ensures ok ==> CameTo(before, disk.nodes, wanted, generation, at + 1) && Refreshable(before, wanted, generation, at)
      ensures ok ==> (replaced <==> before[Entry(at)] != wanted)
      ensures ok && !replaced ==> disk.nodes == old(disk.nodes)
      ensures disk.reliable && Refreshable(before, wanted, generation, at) ==> ok
    {
      ghost var middle := disk.nodes;
      assert Untouched(before, middle, generation, at);
      replaced := false;
      var entry := disk.Read(Entry(at));
      if entry.None? {
        return false, replaced;
      }
      if entry.value == wanted {
        return true, replaced;
      }
      var presence := disk.Inspect(Part(at));
      if presence != Missing {
        return false, replaced;
      }
      var flawed: bool := *;
      ok := CopyIn(at, if flawed && !disk.reliable then Torn else wanted, wanted, generation, before, mark);
      EntriesStillStand(before, middle, disk.nodes, generation, at, disk.movable);
      if !ok {
        return;
      }
      ghost var ready := disk.nodes;
      replaced := Place(at, wanted, generation, before, mark);
      EntriesStillStand(before, ready, disk.nodes, generation, at, disk.movable);
      OnlyAtTwice(middle, ready, disk.nodes, generation, at);
      OthersStay(before, middle, disk.nodes, wanted, generation, at);
      var reported: bool := *;
      ok := replaced && (reported || disk.reliable);
    }

    /** Every entry whose bytes differ replaced by `acforward`. An error may come after some entries
        were replaced; none of them is lost. */
    method Refresh(acforward: Path, generation: nat) returns (ok: bool, refreshed: nat)
      requires acforward.Elsewhere?
      modifies disk
      ensures old(disk.past) <= disk.past
      ensures disk.nodes == old(disk.nodes) || acforward in old(disk.nodes)
      ensures acforward in old(disk.nodes) ==>
                Custody(old(disk.nodes), disk.nodes, disk.past, |old(disk.past)|, old(disk.nodes)[acforward], generation)
      ensures ok ==>
                && acforward in old(disk.nodes)
                && RefreshedBelow(old(disk.nodes), disk.nodes, old(disk.nodes)[acforward], generation, ENTRIES)
                && refreshed == |Stale(old(disk.nodes), old(disk.nodes)[acforward], ENTRIES)|
      ensures ok && refreshed == 0 ==> disk.nodes == old(disk.nodes)
      ensures disk.movable ==> EntriesStand(old(disk.nodes), disk.nodes)
      ensures disk.reliable ==>
                (ok <==> acforward in old(disk.nodes)
                         && RefreshableBelow(old(disk.nodes), old(disk.nodes)[acforward], generation, ENTRIES))
    {
      refreshed := 0;
      ghost var before, mark := disk.nodes, |disk.past|;
      var source := disk.Read(acforward);
      if source.None? {
        return false, 0;
      }
      var wanted := source.value;
      for at := 0 to ENTRIES
        invariant old(disk.past) <= disk.past && (refreshed == 0 ==> disk.nodes == before)
        invariant Custody(before, disk.nodes, disk.past, mark, wanted, generation)
        invariant CameTo(before, disk.nodes, wanted, generation, at)
        invariant refreshed == |Stale(before, wanted, at)|
        invariant disk.movable ==> EntriesStand(before, disk.nodes)
      {
        var placed: bool;
        ok, placed := RefreshEntry(at, wanted, generation, before, mark);
        if !ok {
          return;
        }
        StaleMore(before, wanted, at);
        refreshed := refreshed + if placed then 1 else 0;
      }
      var reported: bool := *;
      ok := reported || disk.reliable;
    }
  }
}
