/** The file system as acsetup's transactions see it: one map, changed one operation at a time.

    Every operation may fail. `past` records each state that existed after some step, so a crash
    between any two steps leaves exactly one of the states it holds: a property of every recorded
    state is a property of every crash. */
module Disks {
  import opened Outcomes

  /** `state` is `before`, or `before` with an unfinished new file at `path`. */
  ghost predicate Unfinished<P, N>(before: map<P, N>, path: P, torn: N, state: map<P, N>) {
    state == before || (path !in before && state == before[path := torn])
  }

  /** A rename: the node leaves `source` and takes `target`'s name, whatever held it. */
  ghost function Moved<P, N>(nodes: map<P, N>, source: P, target: P): map<P, N>
    requires source in nodes
  {
    (nodes - {source})[target := nodes[source]]
  }

  datatype Denial<P> = Renaming(source: P, target: P) | Removing(path: P)

  /** This was tried since, and did not happen. */
  ghost predicate Tried<P>(before: seq<Denial<P>>, after: seq<Denial<P>>, denial: Denial<P>) {
    before <= after && denial in after[|before|..]
  }

  lemma TriedBetween<P>(
    one: seq<Denial<P>>, two: seq<Denial<P>>, three: seq<Denial<P>>, four: seq<Denial<P>>, denial: Denial<P>)
    requires one <= two && Tried(two, three, denial) && three <= four
    ensures Tried(one, four, denial)
  {
    var i :| 0 <= i < |three| - |two| && three[|two|..][i] == denial;
    assert four[|one|..][i + |two| - |one|] == denial;
  }

  datatype Presence = Missing | There | Unknown

  class Disk<P(==), N(==)> {
    /** Whether every rename and every look that can be done is done, and whether everything else is.
        What a clause says of a reliable disk is what happens when nothing fails. */
    const movable: bool
    const writable: bool
    const reliable: bool := movable && writable

    var nodes: map<P, N>
    ghost var past: seq<map<P, N>>

    /** The renames and removals of something there that did not happen, in order. */
    ghost var denied: seq<Denial<P>>

    /** create_new, write_all, sync_all: never over an existing file, and never half of one
        reported as done. */
    method WriteNew(path: P, content: N, torn: N) returns (done: bool)
      modifies `nodes, `past
      ensures old(past) <= past
      ensures path in old(nodes) ==> !done && nodes == old(nodes) && past == old(past)
      ensures reliable && path !in old(nodes) ==> done
      ensures done ==> path !in old(nodes) && nodes == old(nodes)[path := content]
      ensures !done ==> Unfinished(old(nodes), path, torn, nodes)
      ensures past == old(past) + if done then [old(nodes)[path := torn], nodes]
                                  else if nodes == old(nodes) then [] else [nodes]
      ensures forall k | |old(past)| <= k < |past| ::
                past[k] == nodes || Unfinished(old(nodes), path, torn, past[k])
    {
      var refused: bool, unfinished: bool := *, *;
      if (refused && !reliable) || path in nodes {
        done := false;
      } else {
        nodes := nodes[path := torn];
        past := past + [nodes];
        if unfinished && !reliable {
          done := false;
        } else {
          nodes := nodes[path := content];
          past := past + [nodes];
          done := true;
        }
      }
    }

    /** A file written whatever held its name, or a folder kept as one node gaining a file: unfinished
        first, whole last. */
    method Amend(path: P, content: N, torn: N) returns (done: bool)
      modifies `nodes, `past
      ensures old(past) <= past
      ensures reliable ==> done
      ensures done ==> nodes == old(nodes)[path := content]
      ensures !done ==> nodes == old(nodes) || nodes == old(nodes)[path := torn]
      ensures done ==> past == old(past) + [old(nodes)[path := torn], nodes]
      ensures !done && nodes != old(nodes) ==> past == old(past) + [nodes]
      ensures forall k | |old(past)| <= k < |past| ::
                past[k] == nodes || past[k] == old(nodes)[path := torn]
    {
      var refused: bool, unfinished: bool := *, *;
      if refused && !reliable {
        done := false;
      } else {
        nodes := nodes[path := torn];
        past := past + [nodes];
        done := reliable || !unfinished;
        if done {
          nodes := nodes[path := content];
          past := past + [nodes];
        }
      }
    }

    /** A rename takes effect whole or not at all. */
    method Rename(source: P, target: P) returns (done: bool)
      modifies this
      ensures old(past) <= past
      ensures movable && source in old(nodes) ==> done
      ensures done ==> source in old(nodes) && nodes == Moved(old(nodes), source, target)
      ensures past == old(past) + if done then [nodes] else []
      ensures !done ==> nodes == old(nodes)
      ensures denied == if done || source !in old(nodes) then old(denied) else old(denied) + [Renaming(source, target)]
      ensures forall k | |old(past)| <= k < |past| :: past[k] == nodes
    {
      var refused: bool := *;
      if source !in nodes {
        done := false;
      } else if refused && !movable {
        denied := denied + [Renaming(source, target)];
        done := false;
      } else {
        nodes := (nodes - {source})[target := nodes[source]];
        past := past + [nodes];
        done := true;
      }
    }

    /** Only a run's own unfinished file is ever removed. */
    method Remove(path: P) returns (done: bool)
      modifies this
      ensures old(past) <= past
      ensures nodes == old(nodes) || nodes == old(nodes) - {path}
      ensures done <==> path !in nodes
      ensures denied == if done then old(denied) else old(denied) + [Removing(path)]
      ensures reliable ==> done
      ensures past == old(past) + if nodes == old(nodes) then [] else [nodes]
      ensures forall k | |old(past)| <= k < |past| :: past[k] == nodes
    {
      var refused: bool := *;
      if path !in nodes {
        done := true;
      } else if refused && !reliable {
        denied := denied + [Removing(path)];
        done := false;
      } else {
        nodes := nodes - {path};
        past := past + [nodes];
        done := true;
      }
    }

    method Read(path: P) returns (content: Option<N>)
      ensures content.Some? ==> path in nodes && content.value == nodes[path]
      ensures reliable && path in nodes ==> content.Some?
    {
      var refused: bool := *;
      if (refused && !reliable) || path !in nodes {
        content := None;
      } else {
        content := Some(nodes[path]);
      }
    }

    method Inspect(path: P) returns (presence: Presence)
      ensures presence == Missing ==> path !in nodes
      ensures presence == There ==> path in nodes
      ensures movable ==> presence != Unknown
    {
      var refused: bool := *;
      if refused && !movable {
        presence := Unknown;
      } else {
        presence := if path in nodes then There else Missing;
      }
    }
  }
}
