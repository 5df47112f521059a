/** Saving a setting: the new text goes to a temporary file, which then replaces the settings file, so
    the settings file is at every moment what it was or the whole new text. */
module SettingsStores {
  import opened Outcomes
  import opened Disks
  import opened SettingsFiles
  import opened SettingsLaws

  datatype Name = TheFile | Temporary

  datatype Content = Readable(text: string) | Unreadable

  function Held(nodes: map<Name, Content>): Option<Content> {
    if TheFile in nodes then Some(nodes[TheFile]) else None
  }

  /** The text a save starts from: a missing file is empty. */
  ghost predicate StartsFrom(nodes: map<Name, Content>, text: string) {
    Held(nodes) == Some(Readable(text)) || (Held(nodes) == None && text == "")
  }

  /** The settings file is as it was, or whole and new. */
  ghost predicate WholeOrAsItWas(before: Option<Content>, body: string, state: map<Name, Content>) {
    Held(state) == before || Held(state) == Some(Readable(body))
  }

  class Store {
    const disk: Disk<Name, Content>
    /** The file was there at the start and could not be read: nothing is written over it. */
    const blocked: bool

    constructor (disk: Disk<Name, Content>, blocked: bool)
      ensures this.disk == disk && this.blocked == blocked
    {
      this.disk, this.blocked := disk, blocked;
    }

    /** The file read again: its text, or nothing when it cannot be read. */
    method ReadAgain() returns (text: Option<string>)
      ensures text.Some? ==> StartsFrom(disk.nodes, text.value)
      ensures disk.reliable ==> (text.None? <==> Held(disk.nodes) == Some(Unreadable))
    {
      var content := disk.Read(TheFile);
      if content.Some? {
        return if content.value.Readable? then Some(content.value.text) else None;
      }
      var presence := disk.Inspect(TheFile);
      text := if presence.Missing? then Some("") else None;
    }

    /** The body to the temporary file, which then takes the file's name. */
    method Replace(body: string) returns (done: bool)
      modifies disk
      ensures done ==> Held(disk.nodes) == Some(Readable(body)) && Temporary !in disk.nodes
      ensures !done ==> Held(disk.nodes) == Held(old(disk.nodes))
      ensures !done && Temporary in disk.nodes ==> Tried(old(disk.denied), disk.denied, Removing(Temporary))
      ensures disk.reliable ==> done
      ensures old(disk.past) <= disk.past
      ensures forall k | |old(disk.past)| <= k < |disk.past| ::
                WholeOrAsItWas(Held(old(disk.nodes)), body, disk.past[k])
    {
      done := false;
      var written := disk.Amend(Temporary, Readable(body), Unreadable);
      if written {
        done := disk.Rename(Temporary, TheFile);
      }
      if !done {
        ghost var denied := disk.denied;
        var removed := disk.Remove(Temporary);
        if !removed {
          TriedBetween(old(disk.denied), denied, disk.denied, disk.denied, Removing(Temporary));
        }
      }
    }

    method SaveKey(choice: Choice) returns (done: bool, ghost text: string)
      modifies disk
      ensures done ==> !blocked && StartsFrom(old(disk.nodes), text)
      ensures done ==> Held(disk.nodes) == Some(Readable(Save(text, choice))) && Temporary !in disk.nodes
      ensures !done ==> Held(disk.nodes) == Held(old(disk.nodes))
      ensures disk.reliable ==> (done <==> !blocked && Held(old(disk.nodes)) != Some(Unreadable))
      ensures blocked ==> disk.nodes == old(disk.nodes) && disk.past == old(disk.past)
      ensures old(disk.past) <= disk.past
      ensures forall k | |old(disk.past)| <= k < |disk.past| ::
                WholeOrAsItWas(Held(old(disk.nodes)), Save(text, choice), disk.past[k])
    {
      done, text := false, "";
      if blocked {
        return;
      }
      var read := ReadAgain();
      if read.None? {
        return;
      }
      text := read.value;
      var body := SaveChoice(read.value, choice);
      done := Replace(body);
    }
  }
}
