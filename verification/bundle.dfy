/** A bundle's packs laid out as content directories `<digest>\` in one folder: verified before they
    are renamed into place, and nothing already there deleted or overwritten, but for what a failed
    look at a broken name hides.

    A directory is the files it holds; its content digest is that map itself (no collisions). What a
    pack's place may hold besides a directory of regular files is a directory of other things, or no
    directory. */
module Bundles {
  import opened Outcomes
  import opened Disks

  const U64_MAX: nat := 0xFFFF_FFFF_FFFF_FFFF
  const BUFFER: nat := 65536
  const SET_ASIDE_ATTEMPTS: nat := 100

  type Bytes = seq<bv8>

  type Files = map<string, Bytes>

  datatype Digest = Of(files: Files) | Unmatched(text: string)

  datatype Name =
    | Target(digest: Digest)
    | Part(digest: Digest)
    | Broken(digest: Digest, unix: nat, attempt: nat)
    | Other(name: string)

  datatype Node = Tree(files: Files) | Mixed(why: string) | Foreign(why: string)

  type Nodes = map<Name, Node>

  /** One entry of the archive: the pack it lies under, its path below it, and what it inflates to. */
  datatype Entry = Entry(pack: string, relative: string, folder: bool, safe: bool, data: Bytes)

  datatype Pack = Pack(path: string, digest: Digest, byteCount: nat, fileCount: nat)

  datatype OnDiffers = SetAside | Refuse

  datatype Placement = Laid | Refused | Failed

  datatype Present = Absent | Equal | Differs

  /** What is at a pack's place, when it can be read. */
  function Found(nodes: Nodes, digest: Digest): (present: Present)
    ensures present == Equal <==>
              Target(digest) in nodes && nodes[Target(digest)].Tree? && Of(nodes[Target(digest)].files) == digest
    ensures present == Absent <==> Target(digest) !in nodes
  {
    if Target(digest) !in nodes then Absent
    else if nodes[Target(digest)].Tree? && Of(nodes[Target(digest)].files) == digest then Equal
    else Differs
  }

  /** A pack's place is equal in two folders exactly when it holds the same in both, to the byte. */
  lemma OneContentPerDigest(one: Nodes, other: Nodes, digest: Digest)
    requires Found(one, digest) == Equal
    ensures Found(other, digest) == Equal <==> Target(digest) in other && other[Target(digest)] == one[Target(digest)]
  {
  }

  /** `homes` says where each node that was there is now: where it was, or, for a pack's place or an
      unfinished unpack, under a broken name that was free. No two share a home. */
  ghost predicate Homes(before: Nodes, after: Nodes, homes: map<Name, Name>) {
    && homes.Keys == before.Keys
    && (forall name | name in before ::
          && homes[name] in after && after[homes[name]] == before[name]
          && (homes[name] == name
              || ((name.Target? || name.Part?) && homes[name].Broken? && homes[name] !in before)))
    && (forall one, two | one in before && two in before && one != two :: homes[one] != homes[two])
  }

  /** Nothing that was there is deleted or overwritten, only renamed. */
  ghost predicate Conserved(before: Nodes, after: Nodes) {
    exists homes :: Homes(before, after, homes)
  }

  ghost predicate Custody(before: Nodes, after: Nodes, past: seq<Nodes>, mark: nat, homes: map<Name, Name>) {
    && Homes(before, after, homes)
    && mark <= |past|
    && forall k | mark <= k < |past| :: Conserved(before, past[k])
  }

  ghost function Holders(nodes: Nodes, node: Node): set<Name> {
    set name | name in nodes && nodes[name] == node
  }

  lemma {:induction false} InjectedSize(names: set<Name>, homes: map<Name, Name>, targets: set<Name>)
    requires forall name | name in names :: name in homes && homes[name] in targets
    requires forall one, two | one in names && two in names && one != two :: homes[one] != homes[two]
    ensures |names| <= |targets|
  {
    if names != {} {
      var name :| name in names;
      InjectedSize(names - {name}, homes, targets - {homes[name]});
    }
  }

  /** No content is lost, and each is still there under as many names as before. */
  lemma NoContentLost(before: Nodes, after: Nodes)
    requires Conserved(before, after)
    ensures before.Values <= after.Values
    ensures forall node :: |Holders(before, node)| <= |Holders(after, node)|
  {
    var homes :| Homes(before, after, homes);
    forall name | name in before
      ensures before[name] in after.Values
    {
      assert after[homes[name]] == before[name];
    }
    forall node
      ensures |Holders(before, node)| <= |Holders(after, node)|
    {
      InjectedSize(Holders(before, node), homes, Holders(after, node));
    }
  }

  ghost predicate AtHome(before: Nodes, after: Nodes, name: Name, home: Name)
    requires name in before
  {
    && home in after && after[home] == before[name]
    && (home == name || ((name.Target? || name.Part?) && home.Broken? && home !in before))
  }

  lemma HomesAll(before: Nodes, after: Nodes, homes: map<Name, Name>)
    requires homes.Keys == before.Keys
    requires forall name | name in before :: AtHome(before, after, name, homes[name])
    requires forall one, two | one in before && two in before && one != two :: homes[one] != homes[two]
    ensures Homes(before, after, homes)
  {
  }

  lemma HomeTwice(
    first: Nodes, second: Nodes, third: Nodes, one: map<Name, Name>, two: map<Name, Name>, name: Name)
    requires Homes(first, second, one) && Homes(second, third, two) && name in first
    ensures one[name] in two && AtHome(first, third, name, two[one[name]])
  {
  }

  lemma ComposedHomes(
    first: Nodes, second: Nodes, third: Nodes, one: map<Name, Name>, two: map<Name, Name>, both: map<Name, Name>)
    requires Homes(first, second, one) && Homes(second, third, two) && both.Keys == first.Keys
    requires forall name | name in first :: one[name] in two && both[name] == two[one[name]]
    ensures forall name | name in first :: AtHome(first, third, name, both[name])
  {
    forall name | name in first
      ensures AtHome(first, third, name, both[name])
    {
      HomeTwice(first, second, third, one, two, name);
    }
  }

  lemma ComposedApart(
    first: Nodes, second: Nodes, third: Nodes, one: map<Name, Name>, two: map<Name, Name>, both: map<Name, Name>)
    requires Homes(first, second, one) && Homes(second, third, two) && both.Keys == first.Keys
    requires forall name | name in first :: one[name] in two && both[name] == two[one[name]]
    ensures forall a, b | a in first && b in first && a != b :: both[a] != both[b]
  {
    forall a, b | a in first && b in first && a != b
      ensures both[a] != both[b]
    {
      assert one[a] != one[b];
    }
  }

  lemma HomesCompose(
    first: Nodes, second: Nodes, third: Nodes, one: map<Name, Name>, two: map<Name, Name>)
    returns (both: map<Name, Name>)
    requires Homes(first, second, one) && Homes(second, third, two)
    ensures Homes(first, third, both)
  {
    both := map name | name in first && one[name] in two :: two[one[name]];
    assert forall name | name in first :: one[name] in second;
    ComposedHomes(first, second, third, one, two, both);
    ComposedApart(first, second, third, one, two, both);
    HomesAll(first, third, both);
  }

  lemma ConservedTwice(first: Nodes, second: Nodes, third: Nodes)
    requires Conserved(first, second) && Conserved(second, third)
    ensures Conserved(first, third)
  {
    var one :| Homes(first, second, one);
    var two :| Homes(second, third, two);
    var both := HomesCompose(first, second, third, one, two);
  }

  /** A name that holds nothing is a run's own to fill. */
  lemma OwnNameConserves(before: Nodes, middle: Nodes, homes: map<Name, Name>, name: Name, after: Nodes)
    requires Homes(before, middle, homes)
    requires name !in middle && after - {name} == middle - {name}
    ensures Homes(before, after, homes)
  {
    forall other | other in before
      ensures homes[other] in after && after[homes[other]] == before[other]
    {
      assert homes[other] in middle - {name};
      assert homes[other] in after - {name};
    }
  }

  /** The homes once what lived at `name` moved to `kept`. */
  ghost function Rehomed(homes: map<Name, Name>, name: Name, kept: Name): map<Name, Name> {
    if name in homes && homes[name] == name then homes[name := kept] else homes
  }

  /** A free broken name takes whatever was at a pack's place or an unfinished unpack's. */
  lemma SetAsideConserves(before: Nodes, middle: Nodes, homes: map<Name, Name>, name: Name, kept: Name)
    requires Homes(before, middle, homes)
    requires (name.Target? || name.Part?) && name in middle && kept.Broken? && kept !in middle
    ensures Homes(before, Moved(middle, name, kept), Rehomed(homes, name, kept))
    ensures name in before ==> Rehomed(homes, name, kept)[name] != name
  {
  }

  lemma HomesLess(before: Nodes, middle: Nodes, homes: map<Name, Name>, gone: Name)
    requires Homes(before, middle, homes) && gone in before
    ensures Homes(before - {gone}, middle - {homes[gone]}, homes - {gone})
  {
  }

  lemma ConservedLess(before: Nodes, after: Nodes, gone: Name)
    requires Conserved(before, after)
    ensures Conserved(before - {gone}, after)
  {
    var homes :| Homes(before, after, homes);
    assert Homes(before - {gone}, after, homes - {gone});
  }

  /** Whether a rename lets `moved` take the name of `taken`: a file a file's, a directory an empty
      directory's. */
  predicate Replaces(moved: Node, taken: Node) {
    if moved.Foreign? then taken.Foreign? else taken == Tree(map[])
  }

  /** What a look at a name says is so, when it could see. */
  predicate Seen(nodes: Nodes, name: Name, look: Presence) {
    (look == Missing ==> name !in nodes) && (look == There ==> name in nodes)
  }

  /** One look at a name, and what the folder held then. */
  datatype Sighting = Sighting(nodes: Nodes, name: Name, seen: Presence)

  /** A look that failed at a name that was taken. */
  predicate Missed(look: Sighting) {
    look.seen == Unknown && look.name in look.nodes
  }

  ghost function Misses(looked: seq<Sighting>): nat {
    if looked == [] then 0
    else Misses(looked[..|looked| - 1]) + if Missed(looked[|looked| - 1]) then 1 else 0
  }

  lemma MissesMore(looked: seq<Sighting>, look: Sighting)
    ensures Misses(looked + [look]) == Misses(looked) + if Missed(look) then 1 else 0
  {
    assert (looked + [look])[..|looked|] == looked;
  }

  lemma {:induction false} NoMisses(looked: seq<Sighting>)
    requires forall look | look in looked :: !Missed(look)
    ensures Misses(looked) == 0
  {
    if looked != [] {
      NoMisses(looked[..|looked| - 1]);
    }
  }

  /** The looks at one broken name after the other. */
  ghost function Log(nodes: Nodes, digest: Digest, unix: nat, looks: seq<Presence>): seq<Sighting> {
    if looks == [] then []
    else Log(nodes, digest, unix, looks[..|looks| - 1])
         + [Sighting(nodes, Broken(digest, unix, |looks|), looks[|looks| - 1])]
  }

  lemma LogMore(nodes: Nodes, digest: Digest, unix: nat, looks: seq<Presence>, look: Presence)
    ensures Log(nodes, digest, unix, looks + [look])
         == Log(nodes, digest, unix, looks) + [Sighting(nodes, Broken(digest, unix, |looks| + 1), look)]
  {
    assert (looks + [look])[..|looks|] == looks;
  }

  /** `name` renamed to the first broken name that was not seen there. */
  ghost predicate PutAside(
    before: Nodes, name: Name, digest: Digest, unix: nat, looks: seq<Presence>, after: Nodes)
  {
    && 0 < |looks| <= SET_ASIDE_ATTEMPTS && name in before
    && (forall k | 0 <= k < |looks| ::
          Seen(before, Broken(digest, unix, k + 1), looks[k]) && (looks[k] == There <==> k + 1 < |looks|))
    && var kept := Broken(digest, unix, |looks|);
       && (kept in before ==> Replaces(before[name], before[kept]))
       && after == Moved(before, name, kept)
  }

  /** Whether a broken name of these is free. */
  ghost predicate Room(nodes: Nodes, digest: Digest, unix: nat) {
    exists attempt: nat | 1 <= attempt <= SET_ASIDE_ATTEMPTS :: Broken(digest, unix, attempt) !in nodes
  }

  /** So far every broken name was seen there. */
  ghost predicate AllTaken(nodes: Nodes, digest: Digest, unix: nat, looks: seq<Presence>) {
    forall k | 0 <= k < |looks| :: looks[k] == There && Broken(digest, unix, k + 1) in nodes
  }

  /** A search so far: every look is noted, none missed and every name was taken. */
  ghost predicate Searched(
    nodes: Nodes, digest: Digest, unix: nat, before: seq<Sighting>, looked: seq<Sighting>, looks: seq<Presence>)
  {
    && looked == before + Log(nodes, digest, unix, looks) && Misses(looked) == Misses(before)
    && AllTaken(nodes, digest, unix, looks)
  }

  lemma OneMoreTaken(nodes: Nodes, digest: Digest, unix: nat, looks: seq<Presence>, look: Presence)
    requires AllTaken(nodes, digest, unix, looks) && Seen(nodes, Broken(digest, unix, |looks| + 1), look)
    ensures look == There ==> AllTaken(nodes, digest, unix, looks + [look])
  {
  }

  lemma NoRoom(nodes: Nodes, digest: Digest, unix: nat, looks: seq<Presence>)
    requires AllTaken(nodes, digest, unix, looks) && |looks| == SET_ASIDE_ATTEMPTS
    ensures !Room(nodes, digest, unix)
  {
    forall attempt: nat | 1 <= attempt <= SET_ASIDE_ATTEMPTS
      ensures Broken(digest, unix, attempt) in nodes
    {
      assert looks[attempt - 1] == There;
    }
  }

  lemma PutAsideAfter(
    before: Nodes, name: Name, digest: Digest, unix: nat, looks: seq<Presence>, look: Presence, after: Nodes)
    requires AllTaken(before, digest, unix, looks) && |looks| < SET_ASIDE_ATTEMPTS && look != There
    requires Seen(before, Broken(digest, unix, |looks| + 1), look) && name in before
    requires Broken(digest, unix, |looks| + 1) in before ==>
               Replaces(before[name], before[Broken(digest, unix, |looks| + 1)])
    requires after == Moved(before, name, Broken(digest, unix, |looks| + 1))
    ensures PutAside(before, name, digest, unix, looks + [look], after)
  {
    assert (looks + [look])[..|looks|] == looks;
  }

  /** Setting a node aside loses nothing exactly when the broken name it takes was free; and it was,
      unless the last look failed. */
  lemma AsideConservesExactlyOnAFreeName(
    before: Nodes, name: Name, digest: Digest, unix: nat, looks: seq<Presence>, after: Nodes)
    requires PutAside(before, name, digest, unix, looks, after) && (name.Target? || name.Part?)
    ensures Conserved(before, after) <==> Broken(digest, unix, |looks|) !in before
    ensures looks[|looks| - 1] != Unknown ==> Conserved(before, after)
  {
    var kept := Broken(digest, unix, |looks|);
    var last := looks[|looks| - 1];
    if kept !in before {
      var homes := map other | other in before :: other;
      assert Homes(before, before, homes);
      SetAsideConserves(before, before, homes, name, kept);
    }
  }

  function TwoFiles(digest: Digest, unix: nat): Nodes {
    map[Target(digest) := Foreign("a file"), Broken(digest, unix, 1) := Foreign("another file")]
  }

  /** The input that shows it: a file in a pack's place, a file under the first broken name, and a look
      at that name that fails. The second file is then gone. */
  lemma AFailedLookLosesAFile(digest: Digest, unix: nat)
    ensures Target(digest) in TwoFiles(digest, unix)
    ensures var before := TwoFiles(digest, unix);
            var after := Moved(before, Target(digest), Broken(digest, unix, 1));
            && PutAside(before, Target(digest), digest, unix, [Unknown], after) && !Conserved(before, after)
            && Foreign("another file") in before.Values && Foreign("another file") !in after.Values
  {
    var before := TwoFiles(digest, unix);
    assert before[Broken(digest, unix, 1)] == Foreign("another file");
    AsideConservesExactlyOnAFreeName(
      before, Target(digest), digest, unix, [Unknown], Moved(before, Target(digest), Broken(digest, unix, 1)));
  }

  /** The original whose home is `home`, if one has it. */
  ghost function Living(homes: map<Name, Name>, home: Name): set<Name> {
    set name | name in homes && homes[name] == home
  }

  /** A broken name taken over: all but what was under it is conserved. */
  lemma OverwritingConservesTheRest(before: Nodes, middle: Nodes, homes: map<Name, Name>, name: Name, kept: Name)
    requires Homes(before, middle, homes)
    requires (name.Target? || name.Part?) && name in middle && kept.Broken?
    ensures |Living(homes, kept)| <= 1
    ensures var rest, moved := before - Living(homes, kept), Rehomed(homes - Living(homes, kept), name, kept);
            && Homes(rest, Moved(middle, name, kept), moved)
            && (name in rest ==> moved[name] != name)
  {
    var living := Living(homes, kept);
    assert Moved(middle - {kept}, name, kept) == Moved(middle, name, kept);
    if living == {} {
      assert before - living == before && homes - living == homes;
      SetAsideConserves(before, middle - {kept}, homes, name, kept);
    } else {
      var gone :| gone in living;
      assert living == {gone};
      HomesLess(before, middle, homes, gone);
      SetAsideConserves(before - {gone}, middle - {kept}, homes - {gone}, name, kept);
    }
  }

  lemma {:induction false} ConservedLessAll(before: Nodes, gone: set<Name>, past: seq<Nodes>, mark: nat)
    requires mark <= |past| && |gone| <= 1
    requires forall k | mark <= k < |past| :: Conserved(before, past[k])
    ensures forall k | mark <= k < |past| :: Conserved(before - gone, past[k])
  {
    if gone == {} {
      assert before - gone == before;
    } else {
      var one :| one in gone;
      assert |gone - {one}| == 0;
      assert gone == {one};
      forall k | mark <= k < |past|
        ensures Conserved(before - gone, past[k])
      {
        ConservedLess(before, past[k], one);
      }
    }
  }

  /** A finished unpack takes its pack's free place. */
  lemma PlacingConserves(before: Nodes, middle: Nodes, homes: map<Name, Name>, digest: Digest)
    requires Homes(before, middle, homes)
    requires Part(digest) in middle && Target(digest) !in middle
    requires Part(digest) in before ==> homes[Part(digest)] != Part(digest)
    ensures Homes(before, Moved(middle, Part(digest), Target(digest)), homes)
  {
  }

  /** Only these names and broken ones may differ. */
  ghost predicate SameElsewhere(before: Nodes, after: Nodes, names: set<Name>) {
    forall other: Name | other !in names && !other.Broken? ::
      (other in before <==> other in after) && (other in before ==> before[other] == after[other])
  }

  lemma KeptElsewhere(before: Nodes, after: Nodes, name: Name)
    requires before - {name} == after - {name}
    ensures SameElsewhere(before, after, {name})
  {
    forall other: Name | other !in {name} && !other.Broken?
      ensures (other in before <==> other in after) && (other in before ==> before[other] == after[other])
    {
      assert other in before <==> other in before - {name};
      assert other in after <==> other in after - {name};
    }
  }

  ghost predicate AllEqual(nodes: Nodes, packs: seq<Pack>) {
    forall pack | pack in packs :: Found(nodes, pack.digest) == Equal
  }

  ghost predicate SomeDiffers(nodes: Nodes, packs: seq<Pack>) {
    exists pack | pack in packs :: Found(nodes, pack.digest) == Differs
  }

  /** The packs, by their place in the index, whose place holds what `present` says. */
  ghost function Places(nodes: Nodes, packs: seq<Pack>, present: Present): set<nat> {
    set i: nat | i < |packs| && Found(nodes, packs[i].digest) == present
  }

  lemma PlacesMore(nodes: Nodes, packs: seq<Pack>, pack: Pack, present: Present)
    ensures |Places(nodes, packs + [pack], present)|
         == |Places(nodes, packs, present)| + if Found(nodes, pack.digest) == present then 1 else 0
  {
    var more := Places(nodes, packs + [pack], present);
    if Found(nodes, pack.digest) == present {
      assert more == Places(nodes, packs, present) + {|packs|};
    } else {
      assert more == Places(nodes, packs, present);
    }
  }

  /** Where each pack landed, by its path in the archive. */
  ghost predicate Listing(packs: seq<Pack>, laid: map<string, Name>) {
    && (forall pack | pack in packs :: pack.path in laid)
    && (forall path | path in laid ::
          exists pack | pack in packs :: pack.path == path && laid[path] == Target(pack.digest))
  }

  lemma ListingMore(packs: seq<Pack>, laid: map<string, Name>, at: nat)
    requires at < |packs| && Listing(packs[..at], laid)
    ensures Listing(packs[..at + 1], laid[packs[at].path := Target(packs[at].digest)])
  {
    assert packs[..at + 1] == packs[..at] + [packs[at]];
    var more := laid[packs[at].path := Target(packs[at].digest)];
    forall path | path in more
      ensures exists pack | pack in packs[..at + 1] :: pack.path == path && more[path] == Target(pack.digest)
    {
      if path == packs[at].path {
        assert packs[at] in packs[..at + 1];
      } else {
        var pack :| pack in packs[..at] && pack.path == path && laid[path] == Target(pack.digest);
        assert pack in packs[..at + 1];
      }
    }
  }

  /** Every pack's place is settled or is as the run found it. */
  ghost predicate SettledOrSame(before: Nodes, after: Nodes, packs: seq<Pack>) {
    forall pack | pack in packs ::
      Found(after, pack.digest) == Equal || Found(after, pack.digest) == Found(before, pack.digest)
  }

  ghost predicate TargetsStay(before: Nodes, after: Nodes) {
    forall name: Name | name.Target? && name in before :: name in after && after[name] == before[name]
  }

  /** What a layout has come to once `packs[..at]` are placed. */
  ghost predicate Progress(before: Nodes, nodes: Nodes, packs: seq<Pack>, at: nat, onDiffers: OnDiffers)
    requires at <= |packs|
  {
    && AllEqual(nodes, packs[..at]) && SettledOrSame(before, nodes, packs)
    && (onDiffers == Refuse ==> TargetsStay(before, nodes))
    && (AllEqual(before, packs) ==> nodes == before)
  }

  lemma TargetsStayLonger(before: Nodes, middle: Nodes, after: Nodes, pack: Pack)
    requires TargetsStay(before, middle)
    requires SameElsewhere(middle, after, {Part(pack.digest), Target(pack.digest)})
    requires Target(pack.digest) in middle ==>
               Target(pack.digest) in after && after[Target(pack.digest)] == middle[Target(pack.digest)]
    ensures TargetsStay(before, after)
  {
    forall name: Name | name.Target? && name in before
      ensures name in after && after[name] == before[name]
    {
      assert name in middle && middle[name] == before[name];
    }
  }

  lemma RefusedDiffers(before: Nodes, middle: Nodes, packs: seq<Pack>, pack: Pack)
    requires SettledOrSame(before, middle, packs) && pack in packs
    ensures Found(middle, pack.digest) == Differs ==> SomeDiffers(before, packs)
    ensures AllEqual(before, packs) ==> Found(before, pack.digest) == Equal
  {
  }

  lemma OneMorePlaced(before: Nodes, middle: Nodes, after: Nodes, packs: seq<Pack>, at: nat)
    requires at < |packs| && AllEqual(middle, packs[..at]) && SettledOrSame(before, middle, packs)
    requires SameElsewhere(middle, after, {Part(packs[at].digest), Target(packs[at].digest)})
    requires Found(after, packs[at].digest) == Equal
    ensures AllEqual(after, packs[..at + 1]) && SettledOrSame(before, after, packs)
  {
    forall pack: Pack
      ensures Found(after, pack.digest) == Found(middle, pack.digest) || Found(after, pack.digest) == Equal
    {
      if pack.digest != packs[at].digest {
        assert Target(pack.digest) !in {Part(packs[at].digest), Target(packs[at].digest)};
      }
    }
    assert packs[..at + 1] == packs[..at] + [packs[at]];
  }

  /** Since `mark` nothing changed but what `part` holds. */
  ghost predicate Confined(start: Nodes, nodes: Nodes, past: seq<Nodes>, mark: nat, part: Name) {
    && nodes - {part} == start - {part}
    && mark <= |past|
    && forall k | mark <= k < |past| :: past[k] - {part} == start - {part}
  }

  lemma ConfinedLonger(
    start: Nodes, middle: Nodes, seen: seq<Nodes>, nodes: Nodes, past: seq<Nodes>, mark: nat, part: Name)
    requires Confined(start, middle, seen, mark, part) && seen <= past
    requires nodes - {part} == middle - {part}
    requires forall k | |seen| <= k < |past| :: past[k] - {part} == middle - {part}
    ensures Confined(start, nodes, past, mark, part)
  {
    forall k | mark <= k < |past|
      ensures past[k] - {part} == start - {part}
    {
      if k < |seen| {
        assert past[k] == seen[k];
      }
    }
  }

  predicate OwnEntry(entry: Entry, path: string) {
    entry.pack == path && !entry.folder
  }

  /** What a pack's entries of an archive hold, if every path can be used and none comes twice. */
  function Gathered(archive: seq<Entry>, path: string): Option<Files> {
    if archive == [] then Some(map[])
    else
      var front, entry := Gathered(archive[..|archive| - 1], path), archive[|archive| - 1];
      if front.None? || !OwnEntry(entry, path) then front
      else if !entry.safe || entry.relative in front.value then None
      else Some(front.value[entry.relative := entry.data])
  }

  function Weight(archive: seq<Entry>, path: string): nat {
    if archive == [] then 0
    else
      var entry := archive[|archive| - 1];
      Weight(archive[..|archive| - 1], path) + if OwnEntry(entry, path) then |entry.data| else 0
  }

  /** Every usable file of a pack, with its own bytes, and no other. */
  ghost predicate HoldsFiles(archive: seq<Entry>, path: string, files: Files) {
    && (forall i | 0 <= i < |archive| && archive[i].pack == path && !archive[i].folder ::
          && archive[i].safe && archive[i].relative in files && files[archive[i].relative] == archive[i].data)
    && (forall i, j | 0 <= i < j < |archive| && archive[i].pack == archive[j].pack == path
                      && !archive[i].folder && !archive[j].folder ::
          archive[i].relative != archive[j].relative)
    && (forall relative | relative in files ::
          exists i | 0 <= i < |archive| ::
            archive[i].pack == path && !archive[i].folder && archive[i].relative == relative)
  }

  lemma OtherLast(archive: seq<Entry>, path: string, files: Files)
    requires archive != [] && !OwnEntry(archive[|archive| - 1], path)
    ensures HoldsFiles(archive, path, files) <==> HoldsFiles(archive[..|archive| - 1], path, files)
  {
    var front := archive[..|archive| - 1];
    forall i | 0 <= i < |archive| && OwnEntry(archive[i], path)
      ensures i < |front| && front[i] == archive[i]
    {
    }
  }

  lemma OwnLast(archive: seq<Entry>, path: string, files: Files)
    requires archive != [] && OwnEntry(archive[|archive| - 1], path)
    ensures var front, entry := archive[..|archive| - 1], archive[|archive| - 1];
      HoldsFiles(archive, path, files)
      <==> entry.safe && entry.relative in files && files[entry.relative] == entry.data
           && HoldsFiles(front, path, files - {entry.relative})
  {
    OwnLastTaken(archive, path, files);
    var front, entry := archive[..|archive| - 1], archive[|archive| - 1];
    if entry.safe && entry.relative in files && files[entry.relative] == entry.data
       && HoldsFiles(front, path, files - {entry.relative}) {
      OwnLastGiven(archive, path, files);
    }
  }

  lemma OwnLastTaken(archive: seq<Entry>, path: string, files: Files)
    requires archive != [] && OwnEntry(archive[|archive| - 1], path)
    ensures var front, entry := archive[..|archive| - 1], archive[|archive| - 1];
      HoldsFiles(archive, path, files) ==>
        entry.safe && entry.relative in files && files[entry.relative] == entry.data
        && HoldsFiles(front, path, files - {entry.relative})
  {
    var front, entry := archive[..|archive| - 1], archive[|archive| - 1];
    if HoldsFiles(archive, path, files) {
      forall i | 0 <= i < |front| && OwnEntry(front[i], path)
        ensures front[i] == archive[i] && front[i].relative != entry.relative
      {
      }
      forall relative | relative in files - {entry.relative}
        ensures exists i | 0 <= i < |front| :: OwnEntry(front[i], path) && front[i].relative == relative
      {
        var i :| 0 <= i < |archive| && OwnEntry(archive[i], path) && archive[i].relative == relative;
        assert front[i] == archive[i];
      }
    }
  }

  lemma OwnLastGiven(archive: seq<Entry>, path: string, files: Files)
    requires archive != [] && OwnEntry(archive[|archive| - 1], path)
    requires archive[|archive| - 1].safe && archive[|archive| - 1].relative in files
    requires files[archive[|archive| - 1].relative] == archive[|archive| - 1].data
    requires HoldsFiles(archive[..|archive| - 1], path, files - {archive[|archive| - 1].relative})
    ensures HoldsFiles(archive, path, files)
  {
    var front, entry := archive[..|archive| - 1], archive[|archive| - 1];
    var others := files - {entry.relative};
    forall i | 0 <= i < |front| && OwnEntry(front[i], path)
      ensures archive[i] == front[i] && archive[i].relative != entry.relative
    {
    }
    forall relative | relative in files
      ensures exists i | 0 <= i < |archive| :: OwnEntry(archive[i], path) && archive[i].relative == relative
    {
      if relative == entry.relative {
        assert OwnEntry(archive[|archive| - 1], path);
      } else {
        assert relative in others;
        var i :| 0 <= i < |front| && OwnEntry(front[i], path) && front[i].relative == relative;
        assert archive[i] == front[i];
      }
    }
  }

  /** What is gathered is each file of a pack once, and there is such a map only if it is gathered. */
  lemma {:induction false} GatheredHolds(archive: seq<Entry>, path: string, files: Files)
    ensures Gathered(archive, path) == Some(files) <==> HoldsFiles(archive, path, files)
  {
    if archive == [] {
      assert HoldsFiles(archive, path, files) <==> files == map[];
    } else {
      var front, entry := archive[..|archive| - 1], archive[|archive| - 1];
      if OwnEntry(entry, path) {
        var others := files - {entry.relative};
        GatheredHolds(front, path, others);
        OwnLast(archive, path, files);
        if Gathered(archive, path) == Some(files) {
          assert others == Gathered(front, path).value;
        }
        if entry.relative in files && files[entry.relative] == entry.data {
          assert files == others[entry.relative := entry.data];
        }
      } else {
        GatheredHolds(front, path, files);
        OtherLast(archive, path, files);
      }
    }
  }

  /** The archive holds the pack as its index declares it. */
  ghost predicate Unpacks(archive: seq<Entry>, pack: Pack) {
    && Gathered(archive, pack.path).Some?
    && Of(Gathered(archive, pack.path).value) == pack.digest
    && |Gathered(archive, pack.path).value| == pack.fileCount
    && Weight(archive, pack.path) == pack.byteCount
  }

  /** Entries of the length an archive can state. */
  ghost predicate Sized(archive: seq<Entry>) {
    forall entry | entry in archive :: |entry.data| <= U64_MAX
  }

  lemma {:induction false} GatheredGrows(archive: seq<Entry>, path: string, at: nat)
    requires at <= |archive|
    ensures Gathered(archive, path).Some? ==>
              && Gathered(archive[..at], path).Some?
              && |Gathered(archive[..at], path).value| <= |Gathered(archive, path).value|
    ensures Weight(archive[..at], path) <= Weight(archive, path)
  {
    if at < |archive| {
      var front := archive[..|archive| - 1];
      assert front[..at] == archive[..at];
      GatheredGrows(front, path, at);
    } else {
      assert archive[..at] == archive;
    }
  }

  /** What one more entry makes of the files so far, and when that rules the pack out. */
  lemma OneEntryMore(archive: seq<Entry>, at: nat, pack: Pack, files: Files, total: nat)
    requires at < |archive| && Gathered(archive[..at], pack.path) == Some(files)
    requires total == Weight(archive[..at], pack.path)
    ensures var entry := archive[at];
      && (!OwnEntry(entry, pack.path) ==>
            Gathered(archive[..at + 1], pack.path) == Some(files) && Weight(archive[..at + 1], pack.path) == total)
      && (OwnEntry(entry, pack.path) && entry.safe && entry.relative !in files ==>
            && Gathered(archive[..at + 1], pack.path) == Some(files[entry.relative := entry.data])
            && Weight(archive[..at + 1], pack.path) == total + |entry.data|)
      && (OwnEntry(entry, pack.path)
          && (!entry.safe || entry.relative in files || |files| >= pack.fileCount
              || total + |entry.data| > pack.byteCount) ==>
            !Unpacks(archive, pack))
  {
    assert archive[..at + 1][..at] == archive[..at];
    GatheredGrows(archive, pack.path, at + 1);
  }

  /** What keeps a pack from being laid out when nothing fails: the archive does not hold it, or no
      broken name is left for what is in the way. */
  ghost predicate Unlayable(archive: seq<Entry>, packs: seq<Pack>, nodes: Nodes, unix: nat) {
    exists pack | pack in packs :: !Unpacks(archive, pack) || !Room(nodes, pack.digest, unix)
  }

  lemma OneFileMore(files: Files, grown: Files, relative: string)
    requires grown - {relative} == files - {relative}
    ensures |grown| <= |files| + 1
  {
    assert grown.Keys <= files.Keys + {relative} by {
      forall name | name in grown
        ensures name in files.Keys + {relative}
      {
        if name != relative {
          assert name in grown - {relative};
        }
      }
    }
    SubsetSize(grown.Keys, files.Keys + {relative});
    assert |grown.Keys| == |grown| && |files.Keys| == |files|;
  }

  lemma {:induction false} SubsetSize(small: set<string>, large: set<string>)
    requires small <= large
    ensures |small| <= |large|
  {
    if small != {} {
      var x :| x in small;
      SubsetSize(small - {x}, large - {x});
    }
  }

  lemma CustodyLonger(
    before: Nodes, middle: Nodes, seen: seq<Nodes>, homes: map<Name, Name>, after: Nodes, past: seq<Nodes>,
    mark: nat, homesAfter: map<Name, Name>)
    requires Custody(before, middle, seen, mark, homes) && seen <= past
    requires Homes(before, after, homesAfter)
    requires forall k | |seen| <= k < |past| :: Conserved(before, past[k])
    ensures Custody(before, after, past, mark, homesAfter)
  {
    forall k | mark <= k < |past|
      ensures Conserved(before, past[k])
    {
      if k < |seen| {
        assert past[k] == seen[k];
      }
    }
  }

  /** One rename more, over a name that may have been taken: at most what was there is lost. */
  lemma CustodyOfTheRest(
    before: Nodes, middle: Nodes, seen: seq<Nodes>, homes: map<Name, Name>, name: Name, kept: Name, past: seq<Nodes>,
    mark: nat, gone: set<Name>)
    requires Custody(before, middle, seen, mark, homes) && seen <= past && gone == Living(homes, kept)
    requires (name.Target? || name.Part?) && name in middle && kept.Broken?
    requires forall k | |seen| <= k < |past| :: past[k] == Moved(middle, name, kept)
    ensures Custody(before - gone, Moved(middle, name, kept), past, mark, Rehomed(homes - gone, name, kept))
    ensures name in before - gone ==> name in homes - gone && Rehomed(homes - gone, name, kept)[name] != name
    ensures |gone| <= if kept in middle then 1 else 0
  {
    OverwritingConservesTheRest(before, middle, homes, name, kept);
    if kept !in middle {
      assert gone == {};
    }
    ConservedLessAll(before, gone, seen, mark);
    forall k | mark <= k < |past|
      ensures Conserved(before - gone, past[k])
    {
      assert if k < |seen| then past[k] == seen[k]
             else Homes(before - gone, past[k], Rehomed(homes - gone, name, kept));
    }
  }

  lemma LostMore(before: Nodes, lost: set<Name>, gone: set<Name>)
    ensures before - lost - gone == before - (lost + gone) && |lost + gone| <= |lost| + |gone|
  {
    assert |lost + gone| + |lost * gone| == |lost| + |gone|;
  }

  lemma NoneLost(before: Nodes, lost: set<Name>, looked: seq<Sighting>)
    requires |lost| <= Misses(looked)
    ensures (forall look | look in looked :: !Missed(look)) ==> before - lost == before
  {
    if forall look | look in looked :: !Missed(look) {
      NoMisses(looked);
    }
  }

  class Folder {
    const disk: Disk<Name, Node>
    /** Where each node a run found is now; kept for the proof only. */
    ghost var homes: map<Name, Name>

    /** The nodes a run found that a rename has overwritten, and every look it took at a broken name;
        kept for the proof only. */
    ghost var lost: set<Name>
    ghost var looked: seq<Sighting>

    /** The bytes handed to the file system by unpacking; kept for the proof only. */
    ghost var written: nat

    constructor (disk: Disk<Name, Node>)
      ensures this.disk == disk
    {
      this.disk := disk;
    }

    ghost predicate InCustody(before: Nodes, mark: nat)
      reads this, disk
    {
      Custody(before - lost, disk.nodes, disk.past, mark, homes) && |lost| <= Misses(looked)
    }

    /** This name holds nothing a run found there: it is the run's own to change. */
    ghost predicate Own(before: Nodes, name: Name)
      reads this
    {
      name in before - lost ==> name in homes && homes[name] != name
    }

    /** The place of a pack read whole; a read that fails is an error, never a difference. */
    method Look(digest: Digest) returns (present: Result<Present>)
      ensures present.Ok? ==> present.value == Found(disk.nodes, digest)
      ensures disk.reliable ==> present.Ok?
    {
      var refused: bool := *;
      present := if refused && !disk.reliable then Err else Ok(Found(disk.nodes, digest));
    }

    /** A rename: a name already taken is overwritten when the file system lets it be, or refused. */
    method RenameAside(name: Name, kept: Name, ghost before: Nodes, ghost mark: nat) returns (done: bool)
      requires Custody(before - lost, disk.nodes, disk.past, mark, homes)
      requires (name.Target? || name.Part?) && kept.Broken?
      modifies disk, this`homes, this`lost
      ensures Custody(before - lost, disk.nodes, disk.past, mark, homes) && old(disk.past) <= disk.past
      ensures done ==>
                && name in old(disk.nodes) && disk.nodes == Moved(old(disk.nodes), name, kept) && Own(before, name)
                && (kept in old(disk.nodes) ==> Replaces(old(disk.nodes)[name], old(disk.nodes)[kept]))
      ensures !done ==> disk.nodes == old(disk.nodes) && lost == old(lost)
      ensures disk.movable && name in old(disk.nodes) && kept !in old(disk.nodes) ==> done
      ensures |lost| <= |old(lost)| + if kept in old(disk.nodes) then 1 else 0
    {
      if name in disk.nodes && kept in disk.nodes && !Replaces(disk.nodes[name], disk.nodes[kept]) {
        return false;
      }
      ghost var middle, seen := disk.nodes, disk.past;
      done := disk.Rename(name, kept);
      if done {
        ghost var gone := Living(homes, kept);
        CustodyOfTheRest(before - lost, middle, seen, homes, name, kept, disk.past, mark, gone);
        LostMore(before, lost, gone);
        homes, lost := Rehomed(homes - gone, name, kept), lost + gone;
      }
    }

    /** A look at the next broken name, noted. */
    method LookAside(digest: Digest, unix: nat, ghost before: seq<Sighting>, ghost looks: seq<Presence>, attempt: nat)
      returns (presence: Presence)
      requires attempt == |looks| + 1 && Searched(disk.nodes, digest, unix, before, looked, looks)
      modifies this`looked
      ensures Seen(disk.nodes, Broken(digest, unix, attempt), presence)
      ensures looked == before + Log(disk.nodes, digest, unix, looks + [presence])
      ensures Misses(looked) == Misses(before)
                                + if presence == Unknown && Broken(digest, unix, attempt) in disk.nodes then 1 else 0
      ensures presence == There ==> Searched(disk.nodes, digest, unix, before, looked, looks + [presence])
      ensures disk.movable ==> presence != Unknown
    {
      presence := disk.Inspect(Broken(digest, unix, attempt));
      ghost var look := Sighting(disk.nodes, Broken(digest, unix, attempt), presence);
      MissesMore(looked, look);
      LogMore(disk.nodes, digest, unix, looks, presence);
      OneMoreTaken(disk.nodes, digest, unix, looks, presence);
      looked := looked + [look];
    }

    /** The first broken name of these that is not seen there, if there is one; `looks` is what the
        looks said. */
    method FindFree(digest: Digest, unix: nat) returns (attempt: nat, ghost looks: seq<Presence>)
      modifies this`looked
      ensures looked == old(looked) + Log(disk.nodes, digest, unix, looks)
      ensures Misses(old(looked)) <= Misses(looked)
      ensures attempt >= 1
      ensures attempt > SET_ASIDE_ATTEMPTS ==> !Room(disk.nodes, digest, unix)
      ensures disk.movable && attempt <= SET_ASIDE_ATTEMPTS ==> Broken(digest, unix, attempt) !in disk.nodes
      ensures attempt <= SET_ASIDE_ATTEMPTS ==>
                && |looks| == attempt && AllTaken(disk.nodes, digest, unix, looks[..attempt - 1])
                && looks[attempt - 1] != There
                && Seen(disk.nodes, Broken(digest, unix, attempt), looks[attempt - 1])
                && (Broken(digest, unix, attempt) in disk.nodes ==> Misses(looked) == Misses(old(looked)) + 1)
    {
      looks, attempt := [], 1;
      while attempt <= SET_ASIDE_ATTEMPTS
        invariant 1 <= attempt <= SET_ASIDE_ATTEMPTS + 1 && |looks| == attempt - 1
        invariant Searched(disk.nodes, digest, unix, old(looked), looked, looks)
      {
        ghost var front := looks;
        var presence := LookAside(digest, unix, old(looked), front, attempt);
        looks := front + [presence];
        assert looks[..attempt - 1] == front;
        if presence != There {
          return;
        }
        attempt := attempt + 1;
      }
      NoRoom(disk.nodes, digest, unix, looks);
    }

    /** `name` renamed to the first `<digest>.broken-<unix>[-n]` that is not seen there, and kept. It
        loses something only where a look failed at a name that was taken. */
    method SetAside(name: Name, digest: Digest, unix: nat, ghost before: Nodes, ghost mark: nat)
      returns (done: bool)
      requires InCustody(before, mark) && (name.Target? || name.Part?)
      modifies disk, this`homes, this`lost, this`looked
      ensures InCustody(before, mark) && old(disk.past) <= disk.past && old(looked) <= looked
      ensures done ==> name !in disk.nodes && Own(before, name)
      ensures done ==>
                exists looks ::
                  && PutAside(old(disk.nodes), name, digest, unix, looks, disk.nodes)
                  && looked == old(looked) + Log(old(disk.nodes), digest, unix, looks)
      ensures SameElsewhere(old(disk.nodes), disk.nodes, {name})
      ensures !done ==> disk.nodes == old(disk.nodes) && lost == old(lost)
      ensures disk.movable && name in old(disk.nodes) ==> (done <==> Room(old(disk.nodes), digest, unix))
    {
      ghost var nodes := disk.nodes;
      var attempt: nat;
      ghost var looks: seq<Presence>;
      attempt, looks := FindFree(digest, unix);
      if attempt > SET_ASIDE_ATTEMPTS {
        return false;
      }
      done := RenameAside(name, Broken(digest, unix, attempt), before, mark);
      if done {
        ghost var front, last := looks[..attempt - 1], looks[attempt - 1];
        assert looks == front + [last];
        PutAsideAfter(nodes, name, digest, unix, front, last, disk.nodes);
      }
    }

    /** A new, empty directory for an unpack; one already there stays as it is. */
    method Create(part: Name, ghost start: Nodes, ghost mark: nat) returns (done: bool)
      requires Confined(start, disk.nodes, disk.past, mark, part)
      modifies disk
      ensures Confined(start, disk.nodes, disk.past, mark, part) && old(disk.past) <= disk.past
      ensures part in old(disk.nodes) ==> !done && disk.nodes == old(disk.nodes) && disk.past == old(disk.past)
      ensures done ==> disk.nodes == old(disk.nodes)[part := Tree(map[])]
      ensures part in disk.nodes && part !in old(disk.nodes) ==> disk.nodes[part] == Tree(map[])
      ensures disk.reliable && part !in old(disk.nodes) ==> done
    {
      ghost var middle, seen := disk.nodes, disk.past;
      done := disk.WriteNew(part, Tree(map[]), Tree(map[]));
      ConfinedLonger(start, middle, seen, disk.nodes, disk.past, mark, part);
    }

    /** A file of the unpack with these bytes so far; `grown` is what the unpack holds. */
    method WriteFile(part: Name, files: Files, relative: string, data: Bytes, ghost start: Nodes, ghost mark: nat)
      returns (done: bool, ghost grown: Files)
      requires Confined(start, disk.nodes, disk.past, mark, part)
      requires part in disk.nodes && disk.nodes[part].Tree?
      requires disk.nodes[part].files - {relative} == files - {relative}
      modifies disk
      ensures Confined(start, disk.nodes, disk.past, mark, part) && old(disk.past) <= disk.past
      ensures part in disk.nodes && disk.nodes[part] == Tree(grown)
      ensures grown - {relative} == files - {relative}
      ensures done ==> grown == files[relative := data]
      ensures disk.reliable ==> done
    {
      ghost var middle, seen := disk.nodes, disk.past;
      var whole := files[relative := data];
      done := disk.Amend(part, Tree(whole), Tree(whole));
      ConfinedLonger(start, middle, seen, disk.nodes, disk.past, mark, part);
      grown := disk.nodes[part].files;
    }

    /** One archive entry inflated into a new file, hashed as it is written, and never more than one
        byte past what the pack declares. `total` is the pack's bytes so far; `kept` is what this
        file holds. */
    method Inflate(entry: Entry, pack: Pack, files: Files, total: nat, ghost start: Nodes, ghost mark: nat)
      returns (ok: bool, kept: Bytes, ghost grown: Files)
      requires Confined(start, disk.nodes, disk.past, mark, Part(pack.digest))
      requires Part(pack.digest) in disk.nodes && disk.nodes[Part(pack.digest)] == Tree(files)
      requires total <= pack.byteCount <= U64_MAX
      modifies disk, this`written
      ensures Confined(start, disk.nodes, disk.past, mark, Part(pack.digest)) && old(disk.past) <= disk.past
      ensures Part(pack.digest) in disk.nodes && disk.nodes[Part(pack.digest)] == Tree(grown)
      ensures grown - {entry.relative} == files - {entry.relative}
      ensures old(written) <= written <= old(written) + pack.byteCount + 1 - total
      ensures ok ==>
                && total + |kept| <= pack.byteCount && written == old(written) + |kept| && kept <= entry.data
                && grown == files[entry.relative := kept]
      ensures ok && |entry.data| <= U64_MAX ==> kept == entry.data
      ensures disk.reliable && total + |entry.data| <= pack.byteCount ==> ok
    {
      var part := Part(pack.digest);
      kept := [];
      ok, grown := WriteFile(part, files, entry.relative, kept, start, mark);
      if !ok {
        return;
      }
      var limit := if pack.byteCount - total + 1 <= U64_MAX then pack.byteCount - total + 1 else U64_MAX;
      var end := if |entry.data| < limit then |entry.data| else limit;
      while |kept| < end
        invariant |kept| <= end && kept <= entry.data && written == old(written) + |kept|
        invariant Confined(start, disk.nodes, disk.past, mark, part) && old(disk.past) <= disk.past
        invariant part in disk.nodes && disk.nodes[part] == Tree(grown)
        invariant grown == files[entry.relative := kept]
        decreases end - |kept|
      {
        var inflated: bool := *;
        if !inflated && !disk.reliable {
          return false, kept, grown;
        }
        var read: nat :| 1 <= read <= end - |kept| && read <= BUFFER;
        written := written + read;
        ok, grown := WriteFile(part, files, entry.relative, entry.data[..|kept| + read], start, mark);
        if !ok {
          return;
        }
        kept := entry.data[..|kept| + read];
      }
      ok := total + |kept| <= pack.byteCount;
    }

    /** The pack's entries unpacked into a new directory beside its place, then compared with what the
        index declares. */
    method Unpack(archive: seq<Entry>, pack: Pack) returns (ok: bool)
      requires pack.byteCount <= U64_MAX
      modifies disk, this`written
      ensures Confined(old(disk.nodes), disk.nodes, disk.past, |old(disk.past)|, Part(pack.digest))
      ensures old(disk.past) <= disk.past
      ensures old(written) <= written <= old(written) + pack.byteCount + 1
      ensures Part(pack.digest) in old(disk.nodes) ==> !ok && disk.nodes == old(disk.nodes) && disk.past == old(disk.past)
      ensures Part(pack.digest) !in old(disk.nodes) && Part(pack.digest) in disk.nodes ==>
                && disk.nodes[Part(pack.digest)].Tree?
                && |disk.nodes[Part(pack.digest)].files| <= pack.fileCount
      ensures ok ==>
                && Part(pack.digest) in disk.nodes
                && Of(disk.nodes[Part(pack.digest)].files) == pack.digest
                && |disk.nodes[Part(pack.digest)].files| == pack.fileCount
                && written == old(written) + pack.byteCount
      ensures Sized(archive) && ok ==> Unpacks(archive, pack)
      ensures Sized(archive) && disk.reliable && Part(pack.digest) !in old(disk.nodes) && Unpacks(archive, pack) ==> ok
    {
      var part := Part(pack.digest);
      ghost var start, mark := disk.nodes, |disk.past|;
      ok := Create(part, start, mark);
      if !ok {
        return;
      }
      var files: Files := map[];
      var total: nat := 0;
      for at := 0 to |archive|
        invariant Confined(start, disk.nodes, disk.past, mark, part) && old(disk.past) <= disk.past
        invariant part in disk.nodes && disk.nodes[part] == Tree(files)
        invariant |files| <= pack.fileCount && total <= pack.byteCount && written == old(written) + total
        invariant Sized(archive) ==>
                    Gathered(archive[..at], pack.path) == Some(files) && Weight(archive[..at], pack.path) == total
      {
        var entry := archive[at];
        var readable: bool := *;
        if !readable && !disk.reliable {
          return false;
        }
        if Sized(archive) {
          OneEntryMore(archive, at, pack, files, total);
        }
        if entry.pack == pack.path && !entry.folder {
          if !entry.safe || |files| >= pack.fileCount || entry.relative in files {
            return false;
          }
          var kept: Bytes;
          ghost var grown;
          ok, kept, grown := Inflate(entry, pack, files, total, start, mark);
          OneFileMore(files, grown, entry.relative);
          if !ok {
            return false;
          }
          total := total + |kept|;
          files := files[entry.relative := kept];
        }
      }
      assert archive[..|archive|] == archive;
      ok := |files| == pack.fileCount && total == pack.byteCount && Of(files) == pack.digest;
    }

    /** `Unpack`, with every original still accounted for. */
    method UnpackInCustody(archive: seq<Entry>, pack: Pack, ghost before: Nodes, ghost mark: nat) returns (ok: bool)
      requires InCustody(before, mark) && pack.byteCount <= U64_MAX
      modifies disk, this`written
      ensures InCustody(before, mark) && old(disk.past) <= disk.past
      ensures disk.nodes - {Part(pack.digest)} == old(disk.nodes) - {Part(pack.digest)}
      ensures ok ==>
                && Part(pack.digest) in disk.nodes && disk.nodes[Part(pack.digest)].Tree?
                && Of(disk.nodes[Part(pack.digest)].files) == pack.digest
                && Own(before, Part(pack.digest))
      ensures Sized(archive) && ok ==> Unpacks(archive, pack)
      ensures Sized(archive) && disk.reliable && Part(pack.digest) !in old(disk.nodes) && Unpacks(archive, pack) ==> ok
    {
      ghost var middle, seen := disk.nodes, disk.past;
      ok := Unpack(archive, pack);
      if Part(pack.digest) !in middle {
        OwnNameConserves(before - lost, middle, homes, Part(pack.digest), disk.nodes);
        forall k | |seen| <= k < |disk.past|
          ensures Conserved(before - lost, disk.past[k])
        {
          OwnNameConserves(before - lost, middle, homes, Part(pack.digest), disk.past[k]);
        }
        CustodyLonger(before - lost, middle, seen, homes, disk.nodes, disk.past, mark, homes);
      }
    }

    /** Whatever is at `part` set aside; nothing to do when nothing is seen there. */
    method ClearPart(pack: Pack, unix: nat, ghost before: Nodes, ghost mark: nat) returns (ok: bool)
      requires InCustody(before, mark)
      modifies disk, this`homes, this`lost, this`looked
      ensures InCustody(before, mark) && old(disk.past) <= disk.past && old(looked) <= looked
      ensures SameElsewhere(old(disk.nodes), disk.nodes, {Part(pack.digest)})
      ensures Part(pack.digest) !in old(disk.nodes) ==> ok && disk.nodes == old(disk.nodes)
      ensures disk.movable ==> (ok <==> Part(pack.digest) !in disk.nodes)
      ensures disk.movable && !ok ==> !Room(disk.nodes, pack.digest, unix)
    {
      var presence := disk.Inspect(Part(pack.digest));
      ok := true;
      if presence == There {
        ok := SetAside(Part(pack.digest), pack.digest, unix, before, mark);
      }
    }

    /** A free place filled: the pack unpacked beside it, verified and renamed in. */
    method Fill(archive: seq<Entry>, pack: Pack, unix: nat, ghost before: Nodes, ghost mark: nat)
      returns (filled: bool)
      requires InCustody(before, mark) && pack.byteCount <= U64_MAX && Target(pack.digest) !in disk.nodes
      modifies disk, this`homes, this`lost, this`looked, this`written
      ensures InCustody(before, mark) && old(disk.past) <= disk.past && old(looked) <= looked
      ensures SameElsewhere(old(disk.nodes), disk.nodes, {Part(pack.digest), Target(pack.digest)})
      ensures filled ==> Found(disk.nodes, pack.digest) == Equal
      ensures Sized(archive) && filled ==> Unpacks(archive, pack)
      ensures disk.reliable && Sized(archive) && !filled ==>
                !Unpacks(archive, pack) || !Room(disk.nodes, pack.digest, unix)
      ensures disk.movable && !filled && Room(disk.nodes, pack.digest, unix) ==> Part(pack.digest) !in disk.nodes
    {
      var cleared := ClearPart(pack, unix, before, mark);
      var reported: bool := *;
      if !cleared || (!reported && !disk.reliable) {
        return false;
      }
      ghost var nodes := disk.nodes;
      var unpacked := UnpackInCustody(archive, pack, before, mark);
      KeptElsewhere(nodes, disk.nodes, Part(pack.digest));
      if !unpacked {
        var _ := ClearPart(pack, unix, before, mark);
        return false;
      }
      ghost var middle, seen := disk.nodes, disk.past;
      var renamed := disk.Rename(Part(pack.digest), Target(pack.digest));
      if !renamed {
        return false;
      }
      PlacingConserves(before - lost, middle, homes, pack.digest);
      CustodyLonger(before - lost, middle, seen, homes, disk.nodes, disk.past, mark, homes);
      var said: bool := *;
      filled := said || disk.reliable;
    }

    /** One pack at its place: reused when it is there already, else unpacked beside it, verified and
        renamed in. What differs there is set aside first, or stops the layout. */
    method Place(archive: seq<Entry>, pack: Pack, onDiffers: OnDiffers, unix: nat, ghost before: Nodes, ghost mark: nat)
      returns (placed: Placement)
      requires InCustody(before, mark) && pack.byteCount <= U64_MAX
      modifies disk, this`homes, this`lost, this`looked, this`written
      ensures InCustody(before, mark) && old(disk.past) <= disk.past && old(looked) <= looked
      ensures SameElsewhere(old(disk.nodes), disk.nodes, {Part(pack.digest), Target(pack.digest)})
      ensures placed.Laid? ==> Found(disk.nodes, pack.digest) == Equal
      ensures placed.Refused? ==> onDiffers == Refuse && Found(old(disk.nodes), pack.digest) == Differs
      ensures onDiffers == Refuse && Found(old(disk.nodes), pack.digest) == Differs ==> !placed.Laid?
      ensures Found(old(disk.nodes), pack.digest) == Equal || placed.Refused? ==>
                disk.nodes == old(disk.nodes) && disk.past == old(disk.past)
      ensures onDiffers == Refuse && Target(pack.digest) in old(disk.nodes) ==>
                Target(pack.digest) in disk.nodes
                && disk.nodes[Target(pack.digest)] == old(disk.nodes)[Target(pack.digest)]
      ensures Sized(archive) && placed.Laid? ==> Found(old(disk.nodes), pack.digest) == Equal || Unpacks(archive, pack)
      ensures disk.reliable && Sized(archive) && placed.Failed? ==>
                !Unpacks(archive, pack) || !Room(disk.nodes, pack.digest, unix)
      ensures disk.movable && placed.Failed? && Room(disk.nodes, pack.digest, unix) ==>
                Part(pack.digest) !in disk.nodes || disk.nodes == old(disk.nodes)
    {
      var target := Target(pack.digest);
      var present := Look(pack.digest);
      if present.Err? {
        return Failed;
      }
      if present.value == Equal {
        return Laid;
      }
      if present.value == Differs {
        if onDiffers == Refuse {
          return Refused;
        }
        var aside := SetAside(target, pack.digest, unix, before, mark);
        if !aside {
          return Failed;
        }
      }
      var filled := Fill(archive, pack, unix, before, mark);
      return if filled then Laid else Failed;
    }

    method PlaceNext(
      archive: seq<Entry>, packs: seq<Pack>, at: nat, onDiffers: OnDiffers, unix: nat, ghost before: Nodes, ghost mark: nat)
      returns (placed: Placement)
      requires InCustody(before, mark) && at < |packs| && packs[at].byteCount <= U64_MAX
      requires Progress(before, disk.nodes, packs, at, onDiffers)
      modifies disk, this`homes, this`lost, this`looked, this`written
      ensures InCustody(before, mark) && old(disk.past) <= disk.past && old(looked) <= looked
      ensures placed.Laid? ==> Progress(before, disk.nodes, packs, at + 1, onDiffers)
      ensures placed.Refused? ==> onDiffers == Refuse && SomeDiffers(before, packs)
      ensures onDiffers == Refuse ==> TargetsStay(before, disk.nodes)
      ensures AllEqual(before, packs) ==> disk.nodes == before && disk.past == old(disk.past)
      ensures disk.reliable && Sized(archive) && placed.Failed? ==> Unlayable(archive, packs, disk.nodes, unix)
    {
      ghost var nodes := disk.nodes;
      RefusedDiffers(before, nodes, packs, packs[at]);
      placed := Place(archive, packs[at], onDiffers, unix, before, mark);
      if onDiffers == Refuse {
        TargetsStayLonger(before, nodes, disk.nodes, packs[at]);
      }
      if placed.Laid? {
        OneMorePlaced(before, nodes, disk.nodes, packs, at);
      }
    }

    /** Every pack at its place, or the first that is not. */
    method LayOut(archive: seq<Entry>, packs: seq<Pack>, onDiffers: OnDiffers, unix: nat)
      returns (placed: Placement, laid: map<string, Name>)
      requires forall pack | pack in packs :: pack.byteCount <= U64_MAX
      modifies disk, this`homes, this`lost, this`looked, this`written
      ensures old(disk.past) <= disk.past
      ensures Custody(old(disk.nodes) - lost, disk.nodes, disk.past, |old(disk.past)|, homes)
      ensures |lost| <= Misses(looked)
      ensures (forall look | look in looked :: !Missed(look)) ==>
                Custody(old(disk.nodes), disk.nodes, disk.past, |old(disk.past)|, homes)
      ensures placed.Laid? ==> AllEqual(disk.nodes, packs) && Listing(packs, laid)
      ensures placed.Refused? ==> onDiffers == Refuse && SomeDiffers(old(disk.nodes), packs)
      ensures onDiffers == Refuse ==> TargetsStay(old(disk.nodes), disk.nodes)
      ensures AllEqual(old(disk.nodes), packs) ==> disk.nodes == old(disk.nodes) && disk.past == old(disk.past)
      ensures disk.reliable && Sized(archive) && placed.Failed? ==> Unlayable(archive, packs, disk.nodes, unix)
    {
      laid := map[];
      ghost var before, mark := disk.nodes, |disk.past|;
      homes, lost, looked := map name | name in before :: name, {}, [];
      for at := 0 to |packs|
        invariant InCustody(before, mark) && old(disk.past) <= disk.past
        invariant Progress(before, disk.nodes, packs, at, onDiffers) && Listing(packs[..at], laid)
        invariant AllEqual(before, packs) ==> disk.past == old(disk.past)
      {
        placed := PlaceNext(archive, packs, at, onDiffers, unix, before, mark);
        if !placed.Laid? {
          NoneLost(before, lost, looked);
          return;
        }
        ListingMore(packs, laid, at);
        laid := laid[packs[at].path := Target(packs[at].digest)];
      }
      assert packs[..|packs|] == packs;
      NoneLost(before, lost, looked);
      placed := Laid;
    }

    /** Each pack against what the folder holds; nothing is changed. */
    method Presence(packs: seq<Pack>) returns (counted: Result<(nat, nat, seq<Pack>)>)
      ensures counted.Ok? ==>
                var (equal, absent, differs) := counted.value;
                && equal == |Places(disk.nodes, packs, Equal)| && absent == |Places(disk.nodes, packs, Absent)|
                && |differs| == |Places(disk.nodes, packs, Differs)|
                && (forall pack :: pack in differs <==> pack in packs && Found(disk.nodes, pack.digest) == Differs)
                && equal + absent + |differs| == |packs|
                && (equal == |packs| <==> AllEqual(disk.nodes, packs))
      ensures disk.reliable ==> counted.Ok?
    {
      var equal, absent, differs: seq<Pack> := 0, 0, [];
      for at := 0 to |packs|
        invariant equal == |Places(disk.nodes, packs[..at], Equal)|
        invariant absent == |Places(disk.nodes, packs[..at], Absent)|
        invariant |differs| == |Places(disk.nodes, packs[..at], Differs)|
        invariant equal + absent + |differs| == at
        invariant forall pack :: pack in differs <==> pack in packs[..at] && Found(disk.nodes, pack.digest) == Differs
        invariant equal == at <==> AllEqual(disk.nodes, packs[..at])
      {
        var present := Look(packs[at].digest);
        if present.Err? {
          return Err;
        }
        assert packs[..at + 1] == packs[..at] + [packs[at]];
        PlacesMore(disk.nodes, packs[..at], packs[at], Equal);
        PlacesMore(disk.nodes, packs[..at], packs[at], Absent);
        PlacesMore(disk.nodes, packs[..at], packs[at], Differs);
        match present.value
        case Absent => absent := absent + 1;
        case Equal => equal := equal + 1;
        case Differs => differs := differs + [packs[at]];
      }
      assert packs[..|packs|] == packs;
      return Ok((equal, absent, differs));
    }
  }
}
