/** The fixed installation manager replaced by a release's acsetup: the program and its identity
    directory are two parts moved by two renames, with a rollback. A directory is one node, as its
    renames move it whole. */
module Manager {
  import opened Outcomes
  import opened Disks

  datatype Path =
    | Program
    | Identity
    | Backup(stamp: nat)
    | BackupProgram(stamp: nat)
    | BackupIdentity(stamp: nat)
    | RetainedCandidate(stamp: nat)
    | RetainedIdentity(stamp: nat)
    | Elsewhere(name: string)

  /** An identity directory holds the source's MEMBERS and build manifest, as far as written. */
  datatype Node =
    | Bytes(text: string)
    | IdentityFolder(members: Option<string>, manifest: Option<string>)
    | Folder
    | Torn

  type Nodes = map<Path, Node>

  /** What one release installs. */
  datatype Release = Release(program: string, members: string, manifest: string)

  /** A backup's files lie in its folder. */
  predicate Fresh(nodes: Nodes, stamp: nat) {
    && Backup(stamp) !in nodes && BackupProgram(stamp) !in nodes && BackupIdentity(stamp) !in nodes
    && RetainedCandidate(stamp) !in nodes && RetainedIdentity(stamp) !in nodes
  }

  ghost predicate InPlace(before: Nodes, after: Nodes, path: Path) {
    path in after && path in before && after[path] == before[path]
  }

  ghost predicate HeldAt(before: Nodes, after: Nodes, path: Path, kept: Path) {
    kept in after && path in before && after[kept] == before[path]
  }

  /** Neither part of the previous manager is lost, and everything else is as it was. */
  ghost predicate Conserved(before: Nodes, after: Nodes, stamp: nat) {
    && (InPlace(before, after, Program) || HeldAt(before, after, Program, BackupProgram(stamp)))
    && (InPlace(before, after, Identity) || HeldAt(before, after, Identity, BackupIdentity(stamp)))
    && (forall path | path in before && path != Program && path != Identity :: InPlace(before, after, path))
  }

  ghost predicate Custody(before: Nodes, after: Nodes, past: seq<Nodes>, mark: nat, stamp: nat) {
    && Conserved(before, after, stamp)
    && mark <= |past|
    && forall k | mark <= k < |past| :: Conserved(before, past[k], stamp)
  }

  /** The previous manager, whole, where it was. */
  ghost predicate Original(before: Nodes, after: Nodes) {
    InPlace(before, after, Program) && InPlace(before, after, Identity)
  }

  /** The release's manager in place, the previous one whole in its backup. */
  ghost predicate Installed(before: Nodes, after: Nodes, release: Release, stamp: nat) {
    && Program in after && after[Program] == Bytes(release.program)
    && Identity in after
    && after[Identity] == IdentityFolder(Some(release.members), Some(release.manifest))
    && HeldAt(before, after, Program, BackupProgram(stamp))
    && HeldAt(before, after, Identity, BackupIdentity(stamp))
  }

  /** Both previous parts are in the backup: the two names are this run's to fill. */
  ghost predicate Vacated(before: Nodes, after: Nodes, stamp: nat) {
    && HeldAt(before, after, Program, BackupProgram(stamp))
    && HeldAt(before, after, Identity, BackupIdentity(stamp))
  }

  lemma CustodyLonger(
    before: Nodes, middle: Nodes, seen: seq<Nodes>, after: Nodes, past: seq<Nodes>, mark: nat, stamp: nat)
    requires Custody(before, middle, seen, mark, stamp) && seen <= past
    requires Conserved(before, after, stamp)
    requires forall k | |seen| <= k < |past| :: Conserved(before, past[k], stamp)
    ensures Custody(before, after, past, mark, stamp)
  {
    forall k | mark <= k < |past|
      ensures Conserved(before, past[k], stamp)
    {
      if k < |seen| {
        assert past[k] == seen[k];
      }
    }
  }

  /** No content of the previous manager, nor of any other file, is gone. */
  lemma NoBytesLost(before: Nodes, after: Nodes, stamp: nat)
    requires Conserved(before, after, stamp)
    ensures before.Values <= after.Values
  {
    forall path | path in before
      ensures before[path] in after.Values
    {
      if InPlace(before, after, path) {
        assert after[path] == before[path];
      } else if path == Program {
        assert after[BackupProgram(stamp)] == before[path];
      } else {
        assert after[BackupIdentity(stamp)] == before[path];
      }
    }
  }

  /** How a replacement ended. `Failed` says whether its rollback reported success. */
  datatype Replacement = Replaced | Unreported | Refused | Failed(restored: bool)

  /** The two files of an identity directory. */
  datatype IdentityFile = TheMembers(text: string) | TheManifest(text: string)

  predicate Lacks(identity: Node, file: IdentityFile) {
    && identity.IdentityFolder?
    && if file.TheMembers? then identity.members.None? else identity.manifest.None?
  }

  function With(identity: Node, file: IdentityFile): Node
    requires identity.IdentityFolder?
  {
    match file
    case TheMembers(text) => identity.(members := Some(text))
    case TheManifest(text) => identity.(manifest := Some(text))
  }

  class Root {
    const disk: Disk<Path, Node>

    /** Whether these members and this manifest vouch for this program. */
    const vouches: (string, string, string) -> bool

    constructor (disk: Disk<Path, Node>, vouches: (string, string, string) -> bool)
      ensures this.disk == disk && this.vouches == vouches
    {
      this.disk, this.vouches := disk, vouches;
    }

    predicate Vouches(release: Release) {
      vouches(release.members, release.manifest, release.program)
    }

    method Shift(source: Path, target: Path, stamp: nat, ghost before: Nodes, ghost mark: nat)
      returns (done: bool)
      requires Custody(before, disk.nodes, disk.past, mark, stamp)
      requires source in disk.nodes ==> Conserved(before, Moved(disk.nodes, source, target), stamp)
      modifies disk
      ensures Custody(before, disk.nodes, disk.past, mark, stamp) && old(disk.past) <= disk.past
      ensures done ==> source in old(disk.nodes) && disk.nodes == Moved(old(disk.nodes), source, target)
      ensures !done ==> disk.nodes == old(disk.nodes)
      ensures disk.denied
                == if done || source !in old(disk.nodes) then old(disk.denied) else old(disk.denied) + [Renaming(source, target)]
      ensures disk.movable && source in old(disk.nodes) ==> done
    {
      ghost var middle, seen := disk.nodes, disk.past;
      done := disk.Rename(source, target);
      if done {
        CustodyLonger(before, middle, seen, disk.nodes, disk.past, mark, stamp);
      }
    }

    /** The last rename that did not happen is the one that was to bring the previous program back. */
    ghost predicate BackIsDenied(stamp: nat)
      reads disk
    {
      disk.denied != [] && disk.denied[|disk.denied| - 1] == Renaming(BackupProgram(stamp), Program)
    }

    /** A new node under one of this run's own names. */
    method Add(path: Path, content: Node, torn: Node, stamp: nat, ghost before: Nodes, ghost mark: nat)
      returns (done: bool)
      requires Custody(before, disk.nodes, disk.past, mark, stamp)
      requires path == Backup(stamp) || ((path.Program? || path.Identity?) && Vacated(before, disk.nodes, stamp))
      modifies disk
      ensures Custody(before, disk.nodes, disk.past, mark, stamp) && old(disk.past) <= disk.past
      ensures done ==> path !in old(disk.nodes) && disk.nodes == old(disk.nodes)[path := content]
      ensures !done ==> Unfinished(old(disk.nodes), path, torn, disk.nodes)
      ensures disk.reliable && path !in old(disk.nodes) ==> done
    {
      ghost var middle, seen := disk.nodes, disk.past;
      done := disk.WriteNew(path, content, torn);
      CustodyLonger(before, middle, seen, disk.nodes, disk.past, mark, stamp);
    }

    /** A file created inside the new identity directory. */
    method Fill(file: IdentityFile, stamp: nat, ghost before: Nodes, ghost mark: nat) returns (done: bool)
      requires Custody(before, disk.nodes, disk.past, mark, stamp)
      requires Vacated(before, disk.nodes, stamp) && Identity in disk.nodes && Lacks(disk.nodes[Identity], file)
      modifies disk
      ensures Custody(before, disk.nodes, disk.past, mark, stamp) && old(disk.past) <= disk.past
      ensures Vacated(before, disk.nodes, stamp) && (Program in disk.nodes <==> Program in old(disk.nodes))
      ensures done ==> disk.nodes == old(disk.nodes)[Identity := With(old(disk.nodes)[Identity], file)]
      ensures disk.reliable ==> done
    {
      ghost var middle, seen := disk.nodes, disk.past;
      done := disk.Amend(Identity, With(disk.nodes[Identity], file), Torn);
      CustodyLonger(before, middle, seen, disk.nodes, disk.past, mark, stamp);
    }

    /** What is installed can be read, and its own identity vouches for it. */
    ghost predicate Vouched(nodes: Nodes) {
      && Program in nodes && nodes[Program].Bytes?
      && Identity in nodes && nodes[Identity].IdentityFolder?
      && nodes[Identity].members.Some? && nodes[Identity].manifest.Some?
      && vouches(nodes[Identity].members.value, nodes[Identity].manifest.value, nodes[Program].text)
    }

    /** The fixed manager read and held against its own identity. */
    method ManagerProgram() returns (vouched: bool)
      ensures vouched ==> Vouched(disk.nodes)
      ensures disk.reliable ==> (vouched <==> Vouched(disk.nodes))
    {
      var identity := disk.Read(Identity);
      if identity.None? || !identity.value.IdentityFolder?
         || identity.value.members.None? || identity.value.manifest.None? {
        return false;
      }
      var program := disk.Read(Program);
      vouched := program.Some? && program.value.Bytes?
                 && vouches(identity.value.members.value, identity.value.manifest.value, program.value.text);
    }

    /** The identity directory of the release and its two files. */
    method WriteIdentity(release: Release, stamp: nat, ghost before: Nodes, ghost mark: nat) returns (done: bool)
      requires Custody(before, disk.nodes, disk.past, mark, stamp) && Vacated(before, disk.nodes, stamp)
      modifies disk
      ensures Custody(before, disk.nodes, disk.past, mark, stamp) && old(disk.past) <= disk.past
      ensures Vacated(before, disk.nodes, stamp) && (Program in disk.nodes <==> Program in old(disk.nodes))
      ensures done ==>
                && Identity in disk.nodes
                && disk.nodes[Identity] == IdentityFolder(Some(release.members), Some(release.manifest))
      ensures disk.reliable && Identity !in old(disk.nodes) ==> done
    {
      done := Add(Identity, IdentityFolder(None, None), IdentityFolder(None, None), stamp, before, mark);
      if !done {
        return;
      }
      done := Fill(TheMembers(release.members), stamp, before, mark);
      if !done {
        return;
      }
      done := Fill(TheManifest(release.manifest), stamp, before, mark);
    }

    /** The release's identity and program written where none stand, then verified. An identity that is
        there is verified and kept. */
    method InstallManager(release: Release, stamp: nat, ghost before: Nodes, ghost mark: nat)
      returns (installed: bool)
      requires Custody(before, disk.nodes, disk.past, mark, stamp)
      requires Vacated(before, disk.nodes, stamp)
      modifies disk
      ensures Custody(before, disk.nodes, disk.past, mark, stamp) && old(disk.past) <= disk.past
      ensures Vacated(before, disk.nodes, stamp)
      ensures installed ==> Vouched(disk.nodes)
      ensures Identity in old(disk.nodes) || !Vouches(release) ==> disk.nodes == old(disk.nodes)
      ensures Identity !in old(disk.nodes) && installed ==> Installed(before, disk.nodes, release, stamp)
      ensures disk.reliable ==>
                (installed <==> if Identity in old(disk.nodes) then Vouched(old(disk.nodes))
                                else Vouches(release) && Program !in old(disk.nodes))
    {
      var reported: bool := *;
      var presence := disk.Inspect(Identity);
      if presence == Unknown {
        return false;
      }
      if presence == There {
        installed := ManagerProgram();
        return installed && (reported || disk.reliable);
      }
      if !Vouches(release) {
        return false;
      }
      var done := WriteIdentity(release, stamp, before, mark);
      if !done {
        return false;
      }
      done := Add(Program, Bytes(release.program), Torn, stamp, before, mark);
      if !done {
        return false;
      }
      installed := ManagerProgram();
      installed := installed && (reported || disk.reliable);
    }

    /** What the release wrote under one of the two names moved aside, if anything is there. */
    method Retain(part: Path, aside: Path, stamp: nat, ghost before: Nodes, ghost mark: nat)
      returns (retained: bool)
      requires Custody(before, disk.nodes, disk.past, mark, stamp) && Vacated(before, disk.nodes, stamp)
      requires (part, aside) in {(Program, RetainedCandidate(stamp)), (Identity, RetainedIdentity(stamp))}
      requires Fresh(before, stamp)
      modifies disk
      ensures Custody(before, disk.nodes, disk.past, mark, stamp) && old(disk.past) <= disk.past
      ensures Vacated(before, disk.nodes, stamp)
      ensures retained ==> part !in disk.nodes
      ensures retained && Program !in old(disk.nodes) ==> Program !in disk.nodes
      ensures disk.movable ==> retained
    {
      var presence := disk.Inspect(part);
      if presence == Unknown {
        return false;
      }
      retained := true;
      if presence == There {
        retained := Shift(part, aside, stamp, before, mark);
      }
    }

    /** Both previous parts back under the names they had. */
    method PutBack(stamp: nat, ghost before: Nodes, ghost mark: nat) returns (restored: bool)
      requires Custody(before, disk.nodes, disk.past, mark, stamp) && Vacated(before, disk.nodes, stamp)
      requires Program !in disk.nodes && Identity !in disk.nodes && Fresh(before, stamp)
      modifies disk
      ensures Custody(before, disk.nodes, disk.past, mark, stamp) && old(disk.past) <= disk.past
      ensures restored ==> Original(before, disk.nodes)
      ensures disk.movable ==> restored
      ensures !restored && BackupIdentity(stamp) !in disk.nodes ==> BackIsDenied(stamp)
    {
      restored := Shift(BackupIdentity(stamp), Identity, stamp, before, mark);
      if restored {
        restored := Shift(BackupProgram(stamp), Program, stamp, before, mark);
      }
    }

    /** What was written aside is retained, then both previous parts go back, each step only after
        the one before it. */
    method Restore(stamp: nat, ghost before: Nodes, ghost mark: nat) returns (restored: bool)
      requires Custody(before, disk.nodes, disk.past, mark, stamp)
      requires Vacated(before, disk.nodes, stamp) && Fresh(before, stamp)
      modifies disk
      ensures Custody(before, disk.nodes, disk.past, mark, stamp) && old(disk.past) <= disk.past
      ensures restored ==> Original(before, disk.nodes)
      ensures disk.movable ==> restored
      ensures !restored && BackupIdentity(stamp) !in disk.nodes ==> BackIsDenied(stamp)
    {
      var retained := Retain(Program, RetainedCandidate(stamp), stamp, before, mark);
      if !retained {
        return false;
      }
      retained := Retain(Identity, RetainedIdentity(stamp), stamp, before, mark);
      if !retained {
        return false;
      }
      restored := PutBack(stamp, before, mark);
    }

    /** Both parts moved out: the release's manager goes in, or the previous one comes back. */
    method InstallOrRestore(release: Release, stamp: nat, ghost before: Nodes, ghost mark: nat)
      returns (replacement: Replacement)
      requires Custody(before, disk.nodes, disk.past, mark, stamp) && Vacated(before, disk.nodes, stamp)
      requires Fresh(before, stamp) && Identity !in disk.nodes
      modifies disk
      ensures Custody(before, disk.nodes, disk.past, mark, stamp) && old(disk.past) <= disk.past
      ensures disk.reliable && Vouches(release) && Program !in old(disk.nodes) ==> replacement.Replaced?
      ensures !replacement.Refused?
      ensures replacement.Replaced? || replacement.Unreported? ==> Installed(before, disk.nodes, release, stamp)
      ensures replacement == Failed(true) ==> Original(before, disk.nodes)
      ensures disk.movable && replacement.Failed? ==> replacement == Failed(true)
      ensures replacement == Failed(false) && BackupIdentity(stamp) !in disk.nodes ==> BackIsDenied(stamp)
    {
      var installed := InstallManager(release, stamp, before, mark);
      if !installed {
        var restored := Restore(stamp, before, mark);
        return Failed(restored);
      }
      var reported: bool := *;
      return if reported || disk.reliable then Replaced else Unreported;
    }

    /** The fixed manager becomes the release's, or is put back. `free` is whether nothing runs it. */
    method ReplaceManager(release: Release, stamp: nat, free: bool) returns (replacement: Replacement)
      requires Backup(stamp) !in disk.nodes ==> Fresh(disk.nodes, stamp)
      modifies disk
      ensures old(disk.past) <= disk.past
      ensures !(Vouched(old(disk.nodes)) && Vouches(release) && free) ==>
                replacement.Refused? && disk.nodes == old(disk.nodes) && disk.past == old(disk.past)
      ensures Vouched(old(disk.nodes)) ==> Custody(old(disk.nodes), disk.nodes, disk.past, |old(disk.past)|, stamp)
      ensures replacement.Replaced? || replacement.Unreported? ==>
                Installed(old(disk.nodes), disk.nodes, release, stamp)
      ensures (replacement.Refused? && Vouched(old(disk.nodes))) || replacement == Failed(true) ==>
                Original(old(disk.nodes), disk.nodes)
      ensures disk.movable && replacement.Failed? ==> replacement == Failed(true)
      ensures replacement == Failed(false) && BackupIdentity(stamp) !in disk.nodes ==> BackIsDenied(stamp)
      ensures disk.reliable && Vouched(old(disk.nodes)) && Vouches(release) && free && Backup(stamp) !in old(disk.nodes) ==>
                replacement.Replaced?
    {
      ghost var before, mark := disk.nodes, |disk.past|;
      var vouched := ManagerProgram();
      if !vouched || !Vouches(release) || !free {
        return Refused;
      }
      var made := Add(Backup(stamp), Folder, Folder, stamp, before, mark);
      if !made {
        return Refused;
      }
      var moved := Shift(Program, BackupProgram(stamp), stamp, before, mark);
      if !moved {
        return Refused;
      }
      moved := Shift(Identity, BackupIdentity(stamp), stamp, before, mark);
      if !moved {
        var restored := Shift(BackupProgram(stamp), Program, stamp, before, mark);
        return Failed(restored);
      }
      replacement := InstallOrRestore(release, stamp, before, mark);
    }
  }
}
