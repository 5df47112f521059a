# ActingCommand UI, modelled in Dafny

This project models six parts of the ActingCommand UI repository (its console `acui` and its installer
`acsetup`) and proves what each of them promises. `dafny verify dfyconfig.toml` checks all of it.

| part | files |
|---|---|
| the installation-selection transaction | `disk.dfy`, `generations.dfy`, `generation_runs.dfy`, `generation_steps.dfy` |
| the rename swaps with rollback | `forwarders.dfy`, `manager.dfy` |
| the content-directory layout | `bundle.dfy` |
| the ledger view model | `ledger_view.dfy`, `paging.dfy`, `recovery.dfy`, `display.dfy`, `frame_group.dfy`, `picking.dfy` |
| the window skins and their close protocol | `skin.dfy`, `skin_outcomes.dfy`, `skins.dfy`, `close_protocol.dfy` |
| the launcher, a start's thread and an unlock's | `launcher.dfy`, `launcher_outcomes.dfy`, `launcher_view.dfy`, `start_run.dfy`, `unlock_run.dfy` |
| the settings file | `text_lines.dfy`, `settings.dfy`, `settings_laws.dfy`, `settings_keys.dfy`, `settings_store.dfy` |
| the interface check | `interfaces.dfy`, `interface_meaning.dfy` |

What the source does by changing things step by step is a class or a loop here (`Disk`, `Writer`, `Plan`,
`Root`, `Folder`, `ViewModel`, `Skins`, `Launcher`, `Store`, `Failures`), proved against a function or a
predicate of the state before and after; what is promised of whole runs is proved of those functions.

## How the parts are modelled

**The file system** is one map, changed one operation at a time (`Disk`). Every operation may fail. `past`
holds every state that existed after some step, so a clause about every recorded state is a clause about a
crash between any two steps. On a `movable` disk every rename and every look that can be done is done, though
writing may fail; on a `reliable` one nothing fails. A clause about such a disk says that an operation does
not give up, and does not skip its rollback, without cause; `denied` notes each rename and removal that was
refused. A write that did not finish leaves `Torn`. Contents are the values they encode and a sha256 is its
content, so two contents with one hash do not exist.

**The selection transaction** is the writer under the installation lock: nothing else changes the files
meanwhile. `compared` notes in which state a selection was compared byte for byte, so that the comparison just
before a rename is part of what is promised. Preparing, reselecting, committing and restoring change no file
that was there but active.json (`Intact`); `Materialize` replaces the programs of a slot that is not selected.
What the daemon and the slot's own program are asked is a parameter (`Answers`). `GenerationRuns` strings calls
together with whatever else happens between them, as long as it keeps active.json and the lasting files
(`Between`): those of the generations, and what was set aside. A slot's programs may be replaced, other
programs may change what is outside, a temporary may be cleared away. Each plan's baseline may have been read
at any earlier moment. `GenerationSteps` takes every call of the writer, and the replacing of a slot's programs,
as a step of such a run, so what is proved of runs holds of the writer's histories; and on a disk on which
nothing fails a plan commits, or is restored, wherever a run can.

**The ledger view** reads an append-only ledger whose answer to a window is its matching events in order.
A page is what the ledger answers. The recovery groups are tied to all statements ever taken.

**A window's skin** is one pane: the native side, the look, the pending timers, the failures reported.
Windows do not touch each other, which `Skins` proves of every method, so runs are stated of one pane with
any theme at any turn. What the native layer answers is a parameter of the turn. `CloseProtocol` runs the
workbench's pane and the launcher together.

**The launcher** is its flags and view, the workers running and the jobs posted. Jobs run in any order,
which covers the order they are posted in. The unlock entry can be pressed only while it is offered.
`RunStart` gives the trace of everything a start does, for every world it may meet: what may come after
what, and how often each thing is done. What each turn of a window or of the launcher comes to is also said
without the functions that take the turn (`SkinOutcomes`, `LauncherOutcomes`).

**The settings file** is its text, split with line ends kept. What a line says is a value of its own, so
the laws about files are laws about lists of such values. What a load gives is also said key by key, by the
last line of each key (`SettingsKeys`).

## What the proofs found

- *Two plans of one baseline.* The transaction rests on comparing the baseline byte for byte just before its
  rename. That alone does not keep two plans of one baseline from both committing: `reselect` can select the
  very bytes of that baseline again in between, and nothing is restored. In `ReselectingLetsBothCommit`, with
  each command planning and committing under one lock, an upgrade takes generation 1 in slot A to generation 2
  in slot B, a switch back reselects generation 1, and an edit whose baseline was read before the upgrade
  (crates/acui-setup/src/generations.rs:363-372) commits generation 3. A second plan can commit exactly when
  the last commit or restoration selected its baseline and no temporary of its generation was left behind
  (`CommitsExactlyOnItsBaseline`). Unless a commit steps down to an older generation, which only a reselected
  plan's does, the first plan must have been restored (`AtMostOneCommits`, `TwoCommitsNeedARestoration`); where
  only prepared plans committed since, a restoration must have been the last (`PreparedPlansNeedARestoration`).
- *A temporary left behind.* A commit that stops between its temporary and its rename leaves
  `active-<generation>.json`, which is never written over and which no call of the writer removes. From then on
  that generation cannot be selected again (`ALeftoverStops`), as a switch back would
  (`ALeftoverStopsReselecting`).
- *A node set aside.* `set_aside` takes any error of its look at a broken name for the name being free, and a
  rename of a file replaces a file. So a file under that name is lost when the look fails
  (`AFailedLookLosesAFile`); nothing is lost exactly when the name was free
  (`AsideConservesExactlyOnAFreeName`), and a whole layout loses at most one node for each look that failed
  at a taken name (`Folder.LayOut`). The module's comment says that nothing in it
  ever deletes an installed pack, file or directory (crates/acui-setup/src/bundle.rs:28-30).
- *The order of recovery pages.* Merging is order-independent exactly when the two pages agree on every
  failure the group holds no answer for (`OrderMattersUnlessAgreed`, both directions).
- *A row of two recovery groups.* The list shows each row once when no row belongs to two groups; that is a
  condition of the theorems, not of the code.
- *The cost of reading back.* At most U/4096 + 5E/128 + 5 windows, where U is the position begun at and E
  the events that match (`ReadingDownIsCheap`, in units of 1/524288). The window is 256 positions as
  README.md:266 of the repository states; the crate that declares the constant is not part of this model.
- *Who may report a failed frame.* A window comes into sight whatever fails, provided the native layer
  reports only from a frame that was attached, which is so because the sink is handed over only after the
  window handle was found (crates/acui-glass/src/win/subclass.rs:90-98).
  `AnEarlierReportWouldHideForGood` shows what would happen otherwise. The report of a step is counted where
  `failed` makes it; `fell` and `detach_loudly` also write to the log without looking at what was reported.
- *A theme saved over a bad line.* A load after a save still warns about earlier bad lines of the same key
  (`OtherWarningsStay`). The console drops every warning about the theme at once (crates/acui-app/src/ui.rs:364-370),
  where its comment speaks of the one line rewritten.

## Model

| member | source | states |
|---|---|---|
| Disks.Disk.WriteNew | crates/acui-setup/src/generations.rs:414-428 | a new file is created only where none is, is whole when reported done, and every state it goes through, absent, unfinished or whole, is recorded |
| Disks.Disk.Amend | crates/acui-app/src/settings.rs:386-386 | a file written over a name is unfinished or whole in every state recorded, and nothing else changes |
| Disks.Disk.Rename | crates/acui-setup/src/generations.rs:283-285 | a rename happens whole or not at all and replaces what had the name; one that was refused is noted |
| Disks.Disk.Remove | crates/acui-app/src/settings.rs:390-391 | only the named file goes, or nothing, and a refusal is noted |
| Generations.LoadStays | crates/acui-installation/src/lib.rs:43-105 | what a prepared selection's bytes lead to, its config under the recorded sha256 and its provider, they lead to for good, whatever happens to active.json, to temporaries, to the slots' programs and outside |
| Generations.OneInForce | crates/acui-installation/src/lib.rs:181-193 | one configuration is in force at a time: a second snapshot is in force exactly when its three byte contents are the first's |
| Generations.Writer.Unchanged | crates/acui-installation/src/lib.rs:181-193 | success means the selection, config and provider bytes in the snapshot's own installation are the ones held |
| Generations.Writer.CheckBaseline | crates/acui-setup/src/generations.rs:328-341 | success means the baseline is in force byte for byte, or with no baseline that nothing is selected |
| Generations.Writer.CarryProvider | crates/acui-setup/src/generations.rs:456-531 | the copy is what the source's manifest held with its paths made absolute, recorded under that sha256, and the document names it; without a manifest there is none; when nothing fails it is carried exactly when there is such a file and the copy's name is free |
| Generations.Writer.WriteInputs | crates/acui-setup/src/generations.rs:122-147 | the configuration is the source document naming the copy, and the copy is what the source's manifest held made absolute, each in a new file |
| Generations.Writer.RecordSelection | crates/acui-setup/src/generations.rs:149-175 | the candidate names the slot's programs as they are and the config and provider just written, under their sha256, and is written last; when nothing fails it is, if the programs are there and what was written loads and is accepted |
| Generations.Writer.WriteGeneration | crates/acui-setup/src/generations.rs:122-175 | a written generation is a fresh folder, completely prepared, carrying the source document and its provider manifest made absolute; every crash point selects what was selected and has lost nothing; when nothing fails it is written exactly when its names are free and its inputs are there |
| Generations.Writer.Admit | crates/acui-setup/src/generations.rs:68-121 | a successor is planned only over its baseline in force, with the slot's lock, for a document its slot reads and whose state both slots share, under the next number; when nothing fails always then |
| Generations.Writer.Prepare | crates/acui-setup/src/generations.rs:60-187 | a plan's generation is the later of the clock and its baseline's successor, fresh, prepared for the slot's programs as they are, with the source document and its provider manifest made absolute, none exactly without one; the baseline's three byte contents are in force, compared after the last write; every crash point is quiet; when nothing fails it is prepared whenever the rules allow it and what it needs is there |
| Generations.NextGenerationIsLeast | crates/acui-setup/src/generations.rs:113-121 | a plan's number is the least one past its baseline's that is not before the clock |
| Generations.Writer.FindNewest | crates/acui-setup/src/generations.rs:209-241 | the scan finds the newest generation prepared for the slot's exact programs, or that there is none; when nothing fails only an unfinished candidate stops it |
| Generations.Writer.Reselect | crates/acui-setup/src/generations.rs:197-265 | the plan selects the newest generation prepared for the slot's exact programs, none is overlooked, an unfinished candidate anywhere is an error, nothing is written, and the baseline's three byte contents are in force; when nothing fails it answers whenever the baseline is in force, the programs are there and every candidate is whole and accepted |
| Generations.Writer.WriteTemporary | crates/acui-setup/src/generations.rs:277-281 | a temporary beside active.json, finished or not, selects nothing |
| Generations.Writer.CheckCandidate | crates/acui-setup/src/generations.rs:271-276 | the baseline is in force and the candidate still the plan's; when nothing fails, exactly when active.json says what the baseline does |
| Generations.Writer.RenameOver | crates/acui-setup/src/generations.rs:283-284 | of what was there before a temporary was written, its rename over active.json changes active.json alone |
| Generations.Writer.Supersede | crates/acui-setup/src/generations.rs:277-284 | every state of the switch selects what was selected or the whole target; the baseline was compared in the very state the rename replaced; when nothing fails it switches unless the temporary's name is taken |
| Generations.Writer.Commit | crates/acui-setup/src/generations.rs:267-287 | every crash point selects either what was selected or the whole target; a plan is committed only by a rename over the very state in which its baseline was compared; `committed` agrees with active.json even when an error comes after the rename; when nothing fails, a commit over its baseline succeeds unless its temporary's name is taken; a plan of another installation or one already committed changes nothing |
| Generations.Writer.RetainFirst | crates/acui-setup/src/generations.rs:301-313 | with no baseline the first selection is set aside under a free name, and `committed` follows the rename; when nothing fails and the name is free it succeeds, and the absence is compared |
| Generations.Writer.PutBack | crates/acui-setup/src/generations.rs:314-325 | a baseline's own bytes come back in one rename, over the very state in which the plan's selection was compared, and `committed` follows the rename; when nothing fails and the temporary's name is free it succeeds |
| Generations.Writer.RestoreBeforeStart | crates/acui-setup/src/generations.rs:291-326 | restoring undoes the plan's own commit or changes nothing, only over the very state in which the plan's selection was compared, is refused without any change after a start attempt, keeps `committed` and active.json in step on every error, and succeeds when nothing fails and the name it needs is free; of a plan of another installation, which it does not tell apart, active.json takes the baseline's bytes, if they lead to files here, and nothing else that was there changes |
| Generations.Plan.MarkStartAttempt | crates/acui-setup/src/generations.rs:343-353 | a start attempt is marked only for a committed plan, and is never unmarked |
| Generations.PreparedStays | crates/acui-setup/src/generations.rs:126-186 | a generation once prepared stays prepared while the lasting files stay, whatever becomes of active.json, temporaries and the slots' programs |
| Generations.AddIsQuiet | crates/acui-setup/src/generations.rs:414-428 | one more new file, whole or torn, keeps the selection sound and everything that was there |
| Generations.SoundMeanwhile | crates/acui-setup/src/generations.rs:126-186 | soundness of the candidates survives any change of active.json, temporaries and the slots' programs |
| Generations.RenameSelects | crates/acui-setup/src/generations.rs:281-287 | renaming a whole temporary over active.json selects exactly what it holds and loses nothing of what was there before it was written |
| Generations.RetainUnselects | crates/acui-setup/src/generations.rs:301-313 | setting the first selection aside leaves none and loses nothing |
| Generations.BaselineStays | crates/acui-setup/src/generations.rs:328-341 | a baseline in force stays so while active.json and the lasting files do |
| Generations.Writer.SwapIn | crates/acui-setup/src/slots.rs:91-128 | wherever the swap of a slot's programs stops, the previous ones are in place or kept under a name that was free; they are left away only if renaming them back was refused; where renames work the new ones go in exactly unless that name is taken |
| Generations.Writer.Materialize | crates/acui-setup/src/slots.rs:54-142 | new programs go only into a slot that is not selected; at every crash point only that slot's names differ and its previous programs are in place or kept; when nothing fails they go in whenever the slot is spare and free, the programs verify and the names are free |
| Generations.MaterializingIsBetween | crates/acui-setup/src/slots.rs:54-142 | replacing a slot's programs keeps every lasting file, the selection and the other slot's programs |
| GenerationRuns.AlwaysSound | crates/acui-setup/src/generations.rs:123-186 | in every run, at every moment, active.json is absent or one whole prepared selection (`GenerationSteps` takes each call of the writer as a step of a run) |
| GenerationRuns.NothingLost | crates/acui-setup/src/generations.rs:126-186 | in every run, across commits, restorations and replaced programs, no file of a generation and nothing set aside is ever overwritten or removed |
| GenerationRuns.ProgramsReplacedIsAStep | crates/acui-setup/src/slots.rs:54-142 | a slot's programs replaced or gone, and anything outside changed, is a step of a run |
| GenerationRuns.ActiveStays | crates/acui-setup/src/generations.rs:291-326 | between commits and restorations active.json never changes, whatever programs are replaced |
| GenerationRuns.CommitsFormAChain | crates/acui-setup/src/generations.rs:328-340 | each commit's baseline is what the last commit or restoration selected, however long ago it was read |
| GenerationRuns.CommitThenRestore | crates/acui-setup/src/generations.rs:291-326 | a commit undone by its own plan leaves active.json as the commit found it, present or absent |
| GenerationRuns.StartedIsFinal | crates/acui-setup/src/generations.rs:343-350 | after a start attempt a plan never selects or restores again |
| GenerationRuns.ChosenAgain | crates/acui-setup/src/generations.rs:267-287 | where active.json comes to say something again there is a step that chose it, and none selected anything after it |
| GenerationRuns.AlwaysDealt | crates/acui-setup/src/generations.rs:60-266 | whenever it was made, a plan finds its target prepared and its baseline's selection leading to the very bytes it held |
| GenerationRuns.CommitsExactlyWhenActive | crates/acui-setup/src/generations.rs:267-287 | an uncommitted plan can commit if and only if active.json holds its baseline's bytes, or with no baseline is absent, and no temporary of its generation was left behind |
| GenerationRuns.RestoresExactlyWhenActive | crates/acui-setup/src/generations.rs:291-326 | a committed plan not started can be restored if and only if its own selection is in active.json and the name the restoration needs is free |
| GenerationRuns.ActiveIsLastChosen | crates/acui-setup/src/generations.rs:267-326 | after any commit or restoration active.json says a choice if and only if the last of them selected it |
| GenerationRuns.CommitsExactlyOnItsBaseline | crates/acui-setup/src/generations.rs:277-340 | after any commit or restoration, a plan of whatever age can commit if and only if the last of them selected its baseline and no temporary of its generation was left behind |
| GenerationRuns.ALeftoverStops | crates/acui-setup/src/generations.rs:277-285 | a temporary left behind stops its generation from ever being selected, for as long as nothing but the writer is at it |
| GenerationRuns.ALeftoverStopsReselecting | crates/acui-setup/src/generations.rs:197-285 | the run in which it does: a generation is reselected, its commit crashes after writing its temporary, and reselected over the very same baseline it cannot commit |
| GenerationRuns.AtMostOneCommits | crates/acui-setup/src/generations.rs:267-326 | while no commit steps down to an older generation, a committed plan that was not restored keeps every other plan of its baseline from committing |
| GenerationRuns.TwoCommitsNeedARestoration | crates/acui-setup/src/generations.rs:267-340 | two plans of one baseline both commit only if the first was restored in between, or a reselected plan's commit stepped down to an older generation |
| GenerationRuns.MadeBefore | crates/acui-setup/src/generations.rs:123-126 | every plan was prepared or reselected before, and one that does not step up was reselected |
| GenerationRuns.FreshIsAnother | crates/acui-setup/src/generations.rs:123-130 | run one command at a time, a plan prepared afresh and committed never selects what was in force at an earlier commit |
| GenerationRuns.PreparedPlansNeedARestoration | crates/acui-setup/src/generations.rs:277-406 | run one command at a time, and with only freshly prepared plans committing since, a second plan of a baseline can commit if and only if a restoration, and nothing after it, brought that baseline back, and no temporary of its generation was left behind |
| GenerationRuns.ReselectingLetsBothCommit | crates/acui-setup/src/generations.rs:197-266 | the promise fails where a generation is reselected: an upgrade, a switch back and an edit of an older baseline, run one at a time, in which two plans of one baseline both commit with nothing restored |
| GenerationSteps.Prepare | crates/acui-setup/src/generations.rs:60-187 | a call of prepare, finished, failed or crashed anywhere, makes a run longer by a preparing step or by one that selects nothing |
| GenerationSteps.Reselect | crates/acui-setup/src/generations.rs:197-265 | a call of reselect makes a run longer by a reselecting step, or leaves it |
| GenerationSteps.Commit | crates/acui-setup/src/generations.rs:267-287 | a call of commit makes a run longer by that plan's committing step exactly when it reports the plan committed, whatever else it returns, and a crash leaves a run too; it commits only where the run can, and when nothing fails wherever the run can |
| GenerationSteps.RestoreBeforeStart | crates/acui-setup/src/generations.rs:291-326 | a call of restore makes a run longer by that plan's restoring step exactly when the plan is committed no more, and a crash leaves a run too; it restores only where the run can, and when nothing fails wherever the run can |
| GenerationSteps.Materialize | crates/acui-setup/src/slots.rs:54-142 | new programs in a spare slot, as often as an upgrade brings them, make a run longer by a step that selects nothing, at every crash point too, and the selected slot's programs stay |
| GenerationSteps.Meanwhile | crates/acui-setup/src/generations.rs:35-58 | what happened between the writer's calls makes a run longer by a step that selects nothing |
| GenerationSteps.MarkStartAttempt | crates/acui-setup/src/generations.rs:343-350 | a start attempt makes a run longer by a marking step, or leaves it |
| GenerationSteps.HeldIsSettled | crates/acui-setup/src/generations.rs:267-291 | whatever other transactions did since it was made, and whatever programs were replaced, a plan in hand meets what commit and restore ask of it |
| GenerationSteps.DealingKeeps | crates/acui-setup/src/generations.rs:181-187 | a new plan leaves the run so far as it was |
| Forwarders.NoBytesLost | crates/acui-setup/src/forwarders.rs:32-118 | a conserved state still holds every content that was on disk |
| Forwarders.Root.CopyIn | crates/acui-setup/src/forwarders.rs:41-67 | a copy is placed beside the entry only under a free name and only when its bytes are the wanted ones; every crash point conserves; when nothing fails a wrong copy is gone again |
| Forwarders.Root.PutIn | crates/acui-setup/src/forwarders.rs:91-106 | the copy goes into the place the entry left, or the entry is back; it stays away only if renaming it back was refused; where renames work it goes in |
| Forwarders.Root.Place | crates/acui-setup/src/forwarders.rs:68-106 | the entry is the wanted one with its original kept, or after an error the original; it is left at its kept name only if renaming it back was refused, and a copy is left behind only if removing it was; where renames work the entry is replaced exactly when its kept name is free, and is the original otherwise |
| Forwarders.Root.RefreshEntry | crates/acui-setup/src/forwarders.rs:36-113 | one entry: unchanged when it is the wanted one, else replaced; when nothing fails it succeeds whenever the entry is there and nothing is in the way |
| Forwarders.Root.Refresh | crates/acui-setup/src/forwarders.rs:32-118 | on success every entry is the wanted one, each replaced original is kept, and as many were replaced as differed; on any error and at any crash point every entry is original, replaced or held aside, and no other file changed; where renames work no entry is missing; when nothing fails it succeeds if and only if every entry is there with nothing in the way |
| Manager.NoBytesLost | crates/acui-setup/src/install.rs:376-406 | a conserved state still holds every content of the previous manager and of every other file |
| Manager.Root.ManagerProgram | crates/acui-installation/src/lib.rs:243-254 | the fixed program is accepted only when its own identity vouches for it, and when nothing fails exactly then |
| Manager.Root.InstallManager | crates/acui-setup/src/install.rs:248-294 | the release's identity and program are written only where none stand, whole and vouched for when reported installed, with the previous manager conserved throughout; an identity that is there is verified and kept; when nothing fails it installs exactly when the release vouches for itself and no program is in the way |
| Manager.Root.Restore | crates/acui-setup/src/install.rs:394-401 | a successful rollback puts both parts back, and at no step is a part of the previous manager lost; where renames work it always succeeds |
| Manager.Root.ReplaceManager | crates/acui-setup/src/install.rs:376-406 | success is the new manager in place and the old one whole in its backup; a refusal or a successful rollback is the old one in place; where renames work every failure ends with the old one in place, and a first rollback fails only if its rename was refused; at every crash point nothing is lost; when nothing fails a vouched manager that is not in use is replaced, and any other is left untouched |
| Bundles.OneContentPerDigest | crates/acui-setup/src/bundle.rs:636-661 | a pack's place is equal in two folders exactly when it holds the same files to the byte in both |
| Bundles.OneMorePlaced | crates/acui-setup/src/bundle.rs:483-527 | placing one pack settles its place and leaves every other pack's place as found |
| Bundles.GatheredHolds | crates/acui-setup/src/bundle.rs:560-609 | what an archive holds of a pack is gathered if and only if its paths can be used and none comes twice, and then it is each of its files, whole, and no other |
| Bundles.NoContentLost | crates/acui-setup/src/bundle.rs:467-531 | every content that was in the folder is still there, under at least as many names as before |
| Bundles.HomesCompose | crates/acui-setup/src/bundle.rs:703-727 | renames compose: each node keeps one home and no two share one |
| Bundles.ConservedTwice | crates/acui-setup/src/bundle.rs:467-531 | a layout after a layout conserves what was there before the first |
| Bundles.SetAsideConserves | crates/acui-setup/src/bundle.rs:703-727 | setting a node aside under a free name conserves everything |
| Bundles.AsideConservesExactlyOnAFreeName | crates/acui-setup/src/bundle.rs:703-727 | setting a node aside loses nothing if and only if the broken name it takes was free, and it was unless the last look at that name failed |
| Bundles.AFailedLookLosesAFile | crates/acui-setup/src/bundle.rs:714-719 | the input on which it does: a file in the pack's place, a file under the first broken name, and a look at it that fails; the second file is gone |
| Bundles.OverwritingConservesTheRest | crates/acui-setup/src/bundle.rs:703-727 | whatever a rename overwrites, everything else that was there is conserved |
| Bundles.PlacingConserves | crates/acui-setup/src/bundle.rs:522-524 | renaming a verified unpack into its free place conserves everything |
| Bundles.Folder.RenameAside | crates/acui-setup/src/bundle.rs:717-719 | the rename keeps everything but the node under a taken name, which it replaces only where a rename can: a file by a file, an empty directory by a directory |
| Bundles.Folder.FindFree | crates/acui-setup/src/bundle.rs:708-716 | the first broken name not seen there among a hundred, every look noted; it is free unless its look failed; none is found exactly when all hundred are taken |
| Bundles.Folder.SetAside | crates/acui-setup/src/bundle.rs:703-727 | success renames the node to the first broken name not seen there, failure changes nothing, and at most one node is lost for each look that failed at a taken name; where renames work it succeeds exactly when one of the hundred names is free |
| Bundles.Folder.WriteFile | crates/acui-setup/src/bundle.rs:583-612 | one file more in the unpack, and nothing else in the folder |
| Bundles.Folder.Inflate | crates/acui-setup/src/bundle.rs:591-612 | the byte budget never goes below zero and at most one byte over the pack's count is written; a file that fits is written whole, and when nothing fails every one that fits is |
| Bundles.Folder.Unpack | crates/acui-setup/src/bundle.rs:560-626 | at most byte_count + 1 bytes and file_count files are written, the part alone changes, and success means the part has the pack's digest and the archive holds the pack; when nothing fails a pack the archive holds is unpacked |
| Bundles.Folder.ClearPart | crates/acui-setup/src/bundle.rs:508-516 | an unfinished unpack is set aside, and where renames work it is gone exactly when that is reported |
| Bundles.Folder.Fill | crates/acui-setup/src/bundle.rs:508-527 | a filled place holds the pack; when nothing fails it is filled unless the archive does not hold the pack or no broken name is left, and where renames work a failed unpack does not stay in the way |
| Bundles.Folder.Place | crates/acui-setup/src/bundle.rs:481-527 | a placed pack has its digest; refusal happens only in refuse mode, on a pack that differs and with nothing changed; a pack already there changes nothing; when nothing fails it is placed or refused unless the archive does not hold it or no broken name is left |
| Bundles.Folder.LayOut | crates/acui-setup/src/bundle.rs:467-530 | success puts every pack at its digest and lists it; at every crash point all that was there is still there, but at most one node for each look at a broken name that failed while the name was taken, so with no such look nothing is lost; in refuse mode no place that was taken changes; a second run changes nothing; when nothing fails it fails only over a pack the archive does not hold or for want of a broken name |
| Bundles.Folder.Presence | crates/acui-setup/src/bundle.rs:537-556 | the three counts are of the packs whose place holds exactly their files, nothing, and something else; those that differ are exactly those listed, so an empty list means refuse mode never refuses (with `LayOut`); when every read works it answers |
| Recovery.FindFailure | crates/acui-model/src/lib.rs:164-190 | the first evidence of a failure, or none |
| Recovery.Absorb | crates/acui-model/src/lib.rs:161-191 | a merge holds the join of the answers, sorted with unique failures, the further state and the union of the gaps |
| Recovery.AbsorbRecovery | crates/acui-model/src/lib.rs:464-479 | a statement is merged into its run's group, or opens one; the other groups stay |
| Recovery.SortingKeepsAnswers | crates/acui-model/src/lib.rs:183-186 | sorting by failure is a permutation and keeps every answer |
| Recovery.SortedIsUnique | crates/acui-model/src/lib.rs:183-186 | a sorted list of evidence is determined by its answers |
| Recovery.FoldedIsAnswered | crates/acui-model/src/lib.rs:149-156 | the failures a group folds are exactly those it has an answer for |
| Recovery.AbsorbingTwice | crates/acui-model/src/lib.rs:161-191 | merging the same page again changes nothing |
| Recovery.AbsorbingNeverShrinks | crates/acui-model/src/lib.rs:149-191 | a merge never lowers the state and never shrinks the failures, the folded set or the gaps |
| Recovery.OrderMattersUnlessAgreed | crates/acui-model/src/lib.rs:161-191 | two pages merge to the same in either order if and only if they agree on each failure not answered before |
| Recovery.MergedAnswer | crates/acui-model/src/lib.rs:161-191 | after any pages a failure is held exactly when it was held or named, an answer held is kept, and any other was stated by some page |
| Recovery.FirstPageDecides | crates/acui-model/src/lib.rs:161-191 | where pages disagree, the answer is the one held before, else that of the first page that answers the failure |
| Recovery.MergedState | crates/acui-model/src/lib.rs:161-191 | after any pages the state is the furthest stated |
| Recovery.PageOrderDoesNotMatter | crates/acui-model/src/lib.rs:161-191 | pages that agree merge to the same evidence, state and gap set in any order |
| Recovery.GroupIsItsRunsMerge | crates/acui-model/src/lib.rs:464-479 | a group is the merge of exactly its own run's statements, whatever came between |
| LedgerView.ViewModel.Begin | crates/acui-model/src/lib.rs:329-340 | a view begun again holds no rows, no window and the first width |
| LedgerView.ViewModel.SetPin | crates/acui-model/src/lib.rs:404-408 | a moved pin changes nothing that is loaded |
| LedgerView.ViewModel.TakeStatements | crates/acui-model/src/lib.rs:441-462 | the recovery groups are those of all statements taken so far |
| LedgerView.ViewModel.TakeEvents | crates/acui-model/src/lib.rs:441-462 | the routine performance events are dropped and counted while they are hidden |
| LedgerView.ViewModel.TakePage | crates/acui-model/src/lib.rs:441-462 | one page behind the ones before it |
| LedgerView.ViewModel.TakeWindow | crates/acui-model/src/lib.rs:441-462 | a window comes to its visible events in order, its hidden count, its completeness and its event count |
| LedgerView.ViewModel.ApplyWindow | crates/acui-model/src/lib.rs:384-403 | a window read goes below the rows and sets the next width and range |
| LedgerView.ViewModel.ApplyNewerWindow | crates/acui-model/src/lib.rs:427-440 | a newer window goes above the rows, and is where reading earlier goes on from when none was read |
| Paging.SliceSplits | crates/acui-model/src/lib.rs:341-345 | two windows that meet hold together what one window over both holds |
| Paging.SliceStays | crates/acui-model/src/lib.rs:417-440 | events appended behind a window do not change it |
| Paging.SliceHolds | crates/acui-model/src/lib.rs:341-359 | a window's slice holds exactly the matching events of its positions |
| Paging.VisibleHolds | crates/acui-model/src/lib.rs:441-462 | what is dropped and what is kept add up to what came |
| Paging.IntervalGrows | crates/acui-model/src/lib.rs:384-403 | a window put against an interval read is the longer interval read, rows and hidden count alike |
| Paging.BegunReflects | crates/acui-model/src/lib.rs:329-340 | a view just begun is the filtered slice of the range it states, which is where every run starts |
| Paging.RunReflects | crates/acui-model/src/lib.rs:329-462 | after any run of windows, growth and pin moves the view is the filtered slice of the interval it states |
| Paging.RowsAreTheInterval | crates/acui-model/src/lib.rs:384-462 | in every run the rows strictly increase and are exactly the matching, visible events of the stated range, and the hidden count is what was dropped |
| Paging.WindowsNeverGapOrOverlap | crates/acui-model/src/lib.rs:341-425 | each window lies right against what is read, below or above, as wide as the state says; none is left exactly when position 1 or the pin is reached |
| Paging.WindowPays | crates/acui-model/src/lib.rs:384-400 | one window's potential: its positions, its events and the width's level pay for it |
| Paging.WindowCount | crates/acui-model/src/lib.rs:34-36 | at most U/4096 + 5E/128 + 5 minus the width's level windows read down to position 1 |
| Paging.ReadingDownIsCheap | crates/acui-model/src/lib.rs:341-400 | from a view just begun at U at most U/4096 + 5E/128 + 5 backward windows read down to position 1 |
| Paging.OneWindowLess | crates/acui-model/src/lib.rs:384-400 | applying one window leaves one fewer to read |
| Paging.ReadsDownToOne | crates/acui-model/src/lib.rs:341-348 | position 1 is read after exactly the counted number of windows, and not before |
| Display.AnchorIs | crates/acui-model/src/lib.rs:512-516 | the anchor is the first group not shown yet that the row belongs to |
| Display.FindRow | crates/acui-model/src/lib.rs:520-520 | the loaded row of a sequence, if any |
| Display.FoldBlock | crates/acui-model/src/lib.rs:519-524 | a group's answered failures that are loaded, newest first, and noted as emitted |
| Display.OneTurn | crates/acui-model/src/lib.rs:506-529 | one row of the loop adds what the specification of a turn says |
| Display.DisplayRows | crates/acui-model/src/lib.rs:501-531 | the list built is the stack of what each row adds |
| Display.LoopIsReference | crates/acui-model/src/lib.rs:501-531 | when no row belongs to two groups the loop shows exactly each row's block: its group's header and folded rows at the group's newest row, and itself unless folded |
| Display.TurnsAreBlocks | crates/acui-model/src/lib.rs:506-529 | at each row the loop's shown groups and emitted rows are those of the rows above, and it adds that row's block |
| Display.EachRowOnce | crates/acui-model/src/lib.rs:501-531 | every loaded row is shown exactly once, folded if its group answers it, else in its own place |
| Display.EachGroupOnce | crates/acui-model/src/lib.rs:498-500 | a group has one header if a loaded row belongs to it, and none otherwise |
| Display.FoldedNewestFirst | crates/acui-model/src/lib.rs:519-524 | the rows folded under a header strictly decrease when the failures strictly increase |
| Display.HeaderFoldsNewestFirst | crates/acui-model/src/lib.rs:506-524 | the rows folded under a group's header strictly decrease, so newest first |
| Display.NewestFirst | crates/acui-model/src/lib.rs:498-531 | the rows shown in their own place come in strictly decreasing sequence |
| FrameGroups.SortedHolds | crates/acui-model/src/frame_group.rs:117-117 | sorting by sequence is a permutation and sorts |
| FrameGroups.DedupedHolds | crates/acui-model/src/frame_group.rs:118-118 | dropping repeated sequences keeps every event once when a sequence names one event |
| FrameGroups.InOrder | crates/acui-model/src/frame_group.rs:113-118 | the events read are exactly the frame's, each once, by increasing sequence |
| FrameGroups.OrderDoesNotMatter | crates/acui-model/src/frame_group.rs:99-118 | what the group states depends only on the set of events: any order, any repetition |
| FrameGroups.FirstCaptureIs | crates/acui-model/src/frame_group.rs:119-139 | the target's event is the capture, or verified capture, no earlier one precedes |
| FrameGroups.CaptureIs | crates/acui-model/src/frame_group.rs:121-124 | an event's capture is its first artifact of the kind, if it has one |
| FrameGroups.EvictionIs | crates/acui-model/src/frame_group.rs:131-135 | the eviction told is the first one of that artifact, if there is one |
| FrameGroups.TargetIs | crates/acui-model/src/frame_group.rs:119-139 | the target is the first verified capture, or with none the first capture, with its own first artifact and eviction |
| FrameGroups.LastRecognitionIs | crates/acui-model/src/frame_group.rs:141-152 | the recognition stated is that of the last event that holds one |
| FrameGroups.FirstStatedIs | crates/acui-model/src/frame_group.rs:175-177 | the extent an input states is that of the first that states one |
| FrameGroups.PassedIs | crates/acui-model/src/frame_group.rs:151-152 | the targets passed are counted |
| FrameGroups.BoxesAre | crates/acui-model/src/frame_group.rs:153-168 | the boxes are those of the targets with a region, each its target's own, in order |
| FrameGroups.MarksAre | crates/acui-model/src/frame_group.rs:169-185 | the marks are those of the inputs meant on the frame, each its input's own, in order |
| FrameGroups.PointsAre | crates/acui-model/src/frame_group.rs:197-205 | an action's points are its named pairs in their order, each exactly when both numbers are named |
| FrameGroups.TakeCapture | crates/acui-model/src/frame_group.rs:119-139 | the running choice of target is the first verified capture so far, else the first capture |
| FrameGroups.Read | crates/acui-model/src/frame_group.rs:99-190 | of the frame's events in ledger order the group states the last recognition's page, size, counts and boxes, and with none only the first size an input states; every mark in order; and the target, the first verified capture or else the first |
| Skin.FailedKeeps | crates/acui-app/src/skin.rs:414-437 | a failure keeps frame, glass and hit test in step with the level, and neither hides nor shows the window nor changes what is pending |
| Skin.AttachedKeeps | crates/acui-app/src/skin.rs:230-255 | an attach that comes due keeps the invariant and brings a waiting window into sight or waits again |
| Skin.SwitchedShows | crates/acui-app/src/skin.rs:177-211 | a switch of theme brings every window that is not closing into sight whatever fails, and leaves a closing one alone |
| Skin.CloseKeeps | crates/acui-app/src/skin.rs:332-356 | a close begins only from a frame of its own, is answered as under way while it lasts, and changes nothing when it goes at once |
| Skin.TurnKeeps | crates/acui-app/src/skin.rs:177-471 | every turn keeps the invariant |
| Skin.AlwaysKept | crates/acui-app/src/skin.rs:177-471 | in every run of a window: own frame exactly when asked for, glass only at the glass level, hit test only with an own frame, one fade exactly while closing, and out of sight only while an attach is pending |
| Skin.TurnDescends | crates/acui-app/src/skin.rs:414-471 | without a new theme a turn only lowers the level, never to flat, and reports a step exactly when it first fails |
| Skin.DescendsAndReportsOnce | crates/acui-app/src/skin.rs:414-471 | between two themes a window's level only descends, never becomes flat, and each step is reported at most once |
| Skin.AttachUsesATry | crates/acui-app/src/skin.rs:241-255 | every attach that comes due strictly lowers the tries left, however the native layer answers |
| Skin.TurnUsesTries | crates/acui-app/src/skin.rs:215-255 | only a theme given adds tries, and every attach that comes due uses one up, whatever it finds |
| Skin.AttachesEnd | crates/acui-app/src/skin.rs:43-46 | however closes, reports and other turns come between, from any moment up to the next theme given no more attaches come due than the tries pending then |
| Skin.OutOfSightSinceOpened | crates/acui-app/src/skin.rs:215-255 | a window that is not closing is out of sight only since it was opened and before any other theme, with an attach pending and no more than its tries come due and left |
| Skin.ComesIntoSight | crates/acui-app/src/skin.rs:43-255 | whatever fails and however turns interleave, an open window that is not closing is in sight once another theme was given since it was opened, or once its first attach and ten retries have come due |
| Skin.ClosingLasts | crates/acui-app/src/skin.rs:332-356 | from a close begun until its fade ends, whatever else happens, the window stays closing and out of sight with exactly one fade pending, and every repeat is answered as under way and changes nothing |
| Skin.CalledOffStays | crates/acui-app/src/skin.rs:361-366 | a close called off leaves the window in sight in the theme of now with no fade pending |
| Skin.AnEarlierReportWouldHideForGood | crates/acui-app/src/skin.rs:414-437 | a frame failure reported before any frame was attached would leave a waiting window out of sight with nothing pending |
| SkinOutcomes.AeroComesTo | crates/acui-app/src/skin.rs:177-315 | picking the Aero theme brings the glass up if and only if the frame goes on and the native layer shows it; the level, the frame, its hit test, what is told and what is pending follow from the first step that fails |
| SkinOutcomes.AttachComesTo | crates/acui-app/src/skin.rs:219-255 | a due attach at the glass level does the same, and leaves glass that was up only where the failure was told before |
| SkinOutcomes.SolidStaysSolid | crates/acui-app/src/skin.rs:230-315 | at solid glass a due attach puts the frame on and never the glass |
| SkinOutcomes.AttachForNothing | crates/acui-app/src/skin.rs:230-240 | an attach that comes due for a window without an own frame changes nothing |
| SkinOutcomes.PlainComesTo | crates/acui-app/src/skin.rs:177-211 | a theme without an own frame, or none that can be drawn, leaves a flat or a system frame at once, with a held frame's hit test off |
| SkinOutcomes.ReportComesTo | crates/acui-app/src/skin.rs:401-471 | a reported failure is told once and lowers the level exactly as far as its step breaks, but never of a closing or flat window |
| SkinOutcomes.ReportOfNone | crates/acui-app/src/skin.rs:414-437 | a failure reported for a window that is gone is logged, and nothing else changes |
| SkinOutcomes.SayComesTo | crates/acui-app/src/skin.rs:474-479 | a failure said on a window is what it tells from then on, and nothing else changes |
| SkinOutcomes.AskComesTo | crates/acui-app/src/ui.rs:238-262 | a close asked for fades exactly from an own frame, is under way while closing, and ends at once otherwise |
| SkinOutcomes.EndsComeTo | crates/acui-app/src/ui.rs:267-276 | a fade that ends, and a close at once, leave no window |
| SkinOutcomes.CalledOffComesTo | crates/acui-app/src/skin.rs:361-366 | a close called off is the theme of now picked for the window as if it had not begun |
| SkinOutcomes.OpenComesTo | crates/acui-app/src/skin.rs:486-507 | a window opens out of sight with its first attach pending exactly when it is to have an own frame |
| Skins.Skins.constructor | crates/acui-app/src/skin.rs:157-159 | no window, nothing pending |
| Skins.Skins.Fail | crates/acui-app/src/skin.rs:414-437 | one window's failure as specified, every other window untouched |
| Skins.Skins.FallToSystemFrame | crates/acui-app/src/skin.rs:441-448 | one window falls to the system's frame as specified |
| Skins.Skins.FallToSolidGlass | crates/acui-app/src/skin.rs:452-456 | one window falls to solid glass as specified |
| Skins.Skins.Fall | crates/acui-app/src/skin.rs:458-471 | level, failure and hit test after a fall |
| Skins.Skins.PutFrame | crates/acui-app/src/skin.rs:257-285 | the frame held is kept or replaced, and the hit test on, or the error given |
| Skins.Skins.PutGlass | crates/acui-app/src/skin.rs:290-315 | the glass shows only at the glass level with a frame, exactly when the native layer shows it, and a failure is handled as one |
| Skins.Skins.TryAttach | crates/acui-app/src/skin.rs:230-255 | one attach as specified |
| Skins.Skins.SwitchWindow | crates/acui-app/src/skin.rs:177-211 | one window's switch as specified |
| Skins.Skins.BeginClose | crates/acui-app/src/skin.rs:332-356 | one window's close begun as specified, and its answer |
| Skins.Skins.CloseCalledOff | crates/acui-app/src/skin.rs:361-366 | one window's close called off as specified |
| Skins.Skins.ApplyBeforeShow | crates/acui-app/src/skin.rs:486-507 | a new window out of sight exactly when it is to have its own frame |
| Skins.Skins.AfterShow | crates/acui-app/src/skin.rs:215-225 | a shown window with a frame of its own has an attach pending |
| Skins.Skins.OpenTurn | crates/acui-app/src/ui.rs:189-219 | a window is opened and shown, or goes as it came, and the invariant holds |
| Skins.Skins.AttachTurn | crates/acui-app/src/skin.rs:219-225 | a due attach is taken once and done as specified, and keeps the invariant |
| Skins.Skins.CloseTurn | crates/acui-app/src/ui.rs:238-262 | a close asked for ends now or posts one fade, and keeps the invariant |
| Skins.Skins.FadeTurn | crates/acui-app/src/ui.rs:267-276 | a fade that runs out ends the window or calls its close off, and keeps the invariant |
| Skins.Skins.ReportTurn | crates/acui-app/src/skin.rs:401-411 | a report of the native layer is a failure of that window alone, and keeps the invariant |
| Skins.Skins.LeaveTurn | crates/acui-app/src/ui.rs:250-256 | a window closed at once leaves the registry a turn later |
| Skins.Skins.SayFailure | crates/acui-app/src/skin.rs:474-479 | a failure said on a window changes nothing else |
| Skins.Skins.SetTheme | crates/acui-app/src/ui.rs:353-363 | every open window is switched, one after the other in whatever order, and no other window changes |
| Skins.Skins.PickTheme | crates/acui-app/src/ui.rs:353-363 | picking a theme keeps every window's invariant and brings every window that is not closing into sight |
| Launchers.StartKeeps | crates/acui-app/src/launcher.rs:471-516 | a start press keeps one request of each kind in flight and never starts beside an unlock |
| Launchers.UnlockKeeps | crates/acui-app/src/launcher.rs:779-837 | an unlock press keeps the same, begins an unlock exactly when it is configured and its thread starts, and withdraws the offer exactly then |
| Launchers.JobKeeps | crates/acui-app/src/launcher.rs:537-547 | every posted job keeps the same; a last word takes its flag down in the same turn |
| Launchers.TurnKeeps | crates/acui-app/src/launcher.rs:471-837 | every turn keeps the invariant |
| Launchers.AlwaysKept | crates/acui-app/src/launcher.rs:471-837 | in every run: an unlock is offered only with no start and no unlock in flight, these two never run together, at most one of each kind is in flight, and the probe answers taken never go back in sequence |
| Launchers.NeverEndsOnAnUnlock | crates/acui-app/src/ui.rs:780-821 | the loop never ends in a turn in which an unlock runs, even one begun during the fade, and once ended stays so |
| Launchers.OvertakenIsNeverTaken | crates/acui-app/src/launcher.rs:285-303 | once a later probe was begun, the answer to an earlier one is never taken, however long it stays in the queue |
| Launchers.UnlockKeepsItOpen | crates/acui-app/src/ui.rs:780-821 | as long as an unlock runs the loop goes on, and once a close was asked for or ran out meanwhile its refusal is said throughout |
| LauncherOutcomes.StartComesTo | crates/acui-app/src/launcher.rs:471-516 | a start press beside a start or an unlock only says busy; otherwise the start begins, or says that nothing ran |
| LauncherOutcomes.UnlockComesTo | crates/acui-app/src/launcher.rs:779-837 | an unlock press runs the unlock and withdraws the offer exactly when it is configured and its thread starts; otherwise it says it failed and stays offered |
| LauncherOutcomes.ShutdownComesTo | crates/acui-app/src/launcher.rs:1051-1126 | a shutdown press beside another only says busy; otherwise it overtakes every probe and runs, or says that nothing did |
| LauncherOutcomes.StartEndsComesTo | crates/acui-app/src/launcher.rs:537-547 | a start's last word brings its line up, offers the unlock exactly as it says, and lets a start be pressed again |
| LauncherOutcomes.UnlockEndsComesTo | crates/acui-app/src/launcher.rs:801-825 | an unlock that is done begins the start in the same turn; one that is not is offered again; either way the workbench may close |
| LauncherOutcomes.OtherJobsComeTo | crates/acui-app/src/launcher.rs:285-303 | a probe's answer is shown exactly when no later probe was begun, and a shutdown's last word ends it |
| LauncherOutcomes.ReadsComeTo | crates/acui-app/src/launcher.rs:308-321 | what the workbench reads itself is shown at once, and no answer of an earlier probe is |
| LauncherOutcomes.CloseComesTo | crates/acui-app/src/ui.rs:780-821 | a close ends or fades the workbench exactly unless an unlock runs or it fades already; a fade that ends does so exactly unless an unlock runs |
| LauncherOutcomes.AnOfferLeadsBackToAStart | crates/acui-app/src/launcher.rs:537-825 | a start that ends asking for an unlock can be answered by one, and once that is done the start begins again |
| LauncherViews.Launcher.constructor | crates/acui-app/src/launcher.rs:113-126 | nothing in flight |
| LauncherViews.Launcher.BeginProbe | crates/acui-app/src/launcher.rs:285-291 | after a new probe no answer to an earlier one changes anything, and its own is taken |
| LauncherViews.Launcher.TakeAnswer | crates/acui-app/src/launcher.rs:293-303 | taking an answer in place refines the specified one: the newest probe's is taken and recorded, any other leaves the whole launcher as it was |
| LauncherViews.Launcher.Live | crates/acui-app/src/launcher.rs:308-315 | a live read stands for the newest probe, and is news only if it differs |
| LauncherViews.Launcher.ReadingFailed | crates/acui-app/src/launcher.rs:318-321 | a failed read overtakes every probe that is out |
| LauncherViews.Launcher.Start | crates/acui-app/src/launcher.rs:471-516 | a start press as specified |
| LauncherViews.Launcher.Unlock | crates/acui-app/src/launcher.rs:779-837 | an unlock press as specified |
| LauncherViews.Launcher.Shutdown | crates/acui-app/src/launcher.rs:1051-1126 | a shutdown press as specified |
| LauncherViews.Launcher.StartOver | crates/acui-app/src/launcher.rs:537-547 | a start's last word: flag down, answer, line and offer in one turn |
| LauncherViews.Launcher.UnlockOver | crates/acui-app/src/launcher.rs:801-825 | an unlock's last word: flag down, then the start or the offer again |
| LauncherViews.Launcher.ShutdownOver | crates/acui-app/src/launcher.rs:1111-1115 | a shutdown's last word in one turn |
| LauncherViews.Launcher.CloseRequested | crates/acui-app/src/ui.rs:780-806 | a close asked for as specified |
| LauncherViews.Launcher.FinishClose | crates/acui-app/src/ui.rs:813-821 | a fade that runs out as specified |
| LauncherViews.Launcher.Take | crates/acui-app/src/launcher.rs:471-837 | any turn taken in place keeps the invariant |
| CloseProtocol.TurnJoins | crates/acui-app/src/ui.rs:780-821 | every turn keeps window and launcher agreed: fading exactly while the window closes, ended exactly when it is gone |
| CloseProtocol.AlwaysJoined | crates/acui-app/src/ui.rs:780-821 | in every run of the workbench the two stay agreed |
| CloseProtocol.AnUnlockKeepsTheWindow | crates/acui-app/src/ui.rs:780-821 | while an unlock runs the window is there and the loop goes on |
| CloseProtocol.WhatACloseComesTo | crates/acui-app/src/ui.rs:788-821 | a close begun fades with exactly one fade pending until that fade ends it, whatever comes between; then the workbench ends, or, exactly if an unlock runs by then, it is open, in sight in the theme of now, and says the refusal |
| CloseProtocol.AnUnlockRefusesAClose | crates/acui-app/src/ui.rs:784-788 | asked for during an unlock, a close changes nothing but that its refusal is said |
| StartRuns.LastOutcome | crates/acui-app/src/launcher.rs:686-709 | the last line that holds an outcome of the schema with a code, shown as the developer line just before it, else itself; none exactly when no line does |
| StartRuns.LastStated | crates/acui-app/src/launcher.rs:686-709 | the last outcome line: it states a code and no later line does |
| StartRuns.FirstDeciding | crates/acui-app/src/launcher.rs:603-653 | the first attempt that ends the wait |
| StartRuns.ExitCodeIs | crates/acui-app/src/launcher.rs:686-709 | the code a start reads is that of the log's last line that holds an outcome of the schema with one, and none if there is no such line |
| StartRuns.ReadExit | crates/acui-app/src/launcher.rs:608-616 | the code an exited daemon's log ends with |
| StartRuns.AskChild | crates/acui-app/src/launcher.rs:604-637 | the daemon is asked after once; its exit, or that it cannot be asked, is the last word |
| StartRuns.ProbeOnce | crates/acui-app/src/launcher.rs:638-654 | a Runtime found is recorded and is the last word; otherwise the wait is said to go on and slept |
| StartRuns.Attempt | crates/acui-app/src/launcher.rs:604-654 | one attempt decides exactly when it is the first that does, and the wait goes on otherwise |
| StartRuns.Await | crates/acui-app/src/launcher.rs:589-668 | the wait comes to what its first deciding attempt says, asking after the daemon once an attempt, probing and sleeping as often as it must and recording exactly a Runtime found |
| StartRuns.LaunchAndAwait | crates/acui-app/src/launcher.rs:562-668 | the log is made exactly with both paths absolute, the daemon launched exactly when that worked, and waited for exactly when it started; it comes to the last word |
| StartRuns.LaunchDaemon | crates/acui-app/src/launcher.rs:573-587 | the log is made once, and the daemon is launched once exactly when that worked |
| StartRuns.AlreadyRunning | crates/acui-app/src/launcher.rs:551-561 | a Runtime up already has the press recorded and nothing launched |
| StartRuns.RunStart | crates/acui-app/src/launcher.rs:533-670 | a start ends with exactly one final word, the one its world determines; it makes the log, launches, records, asks, sleeps, probes and says that it waits exactly as often as its world determines, each with what the world answers and only after what must come before it |
| StartRuns.OffersOnlyUnconfirmed | crates/acui-app/src/launcher.rs:608-629 | the unlock is offered exactly when the launched daemon exited before any Runtime answered and its log's last outcome is owner_resource_unconfirmed |
| StartRuns.DecidedBy | crates/acui-app/src/launcher.rs:603-668 | what a launched start says last follows from the first attempt that decides: a Runtime found, a failed wait, or an exit with its code |
| StartRuns.NotDecided | crates/acui-app/src/launcher.rs:562-668 | without a daemon, or with none that decides in time, a start says it failed and offers nothing |
| StartRuns.RunningOnlyWhenFound | crates/acui-app/src/launcher.rs:550-668 | a start says running exactly when a probe found a Runtime; a log is named exactly when a daemon was launched without one |
| UnlockRuns.FirstStop | crates/acui-app/src/launcher.rs:973-995 | the first poll that ends the wait, within the deadline |
| UnlockRuns.Reaped | crates/acui-app/src/launcher.rs:1015-1030 | one kill, reaped only when it worked |
| UnlockRuns.AwaitExit | crates/acui-app/src/launcher.rs:972-995 | the process is polled once a sleep until its first deciding poll: the exit code seen, or nothing on a poll that fails or is late |
| UnlockRuns.RunUnlock | crates/acui-app/src/launcher.rs:934-1011 | a result exactly when the process ended by itself with both pipes read whole; it is polled only while its pipes are drained, killed only when they could not be or the wait ended without it, and then reaped, or left exactly if the kill or the wait failed |
| UnlockRuns.Unlock | crates/acui-app/src/launcher.rs:841-906 | the last word is done exactly when the process ended by itself with code 0 and a whole report of the schema says completed |
| TextLines.ParseBody | crates/acui-app/src/settings.rs:317-326 | a line reads the same with and without its line end |
| TextLines.EntryReadsBack | crates/acui-app/src/settings.rs:316-338 | a written entry reads back as its key and value |
| TextLines.SplitIsLined | crates/acui-app/src/settings.rs:407-407 | a text splits into lines that end with a newline but the last, which does when the text does |
| TextLines.JoinedSplit | crates/acui-app/src/settings.rs:407-407 | joining the lines of a text gives it back |
| TextLines.SplitOfJoined | crates/acui-app/src/settings.rs:407-407 | splitting joined lines gives them back |
| SettingsFiles.FrameGap | crates/acui-app/src/workbench/preview.rs:111-114 | a frame gap taken is a whole number of seconds in range |
| SettingsFiles.TakeEntry | crates/acui-app/src/settings.rs:280-300 | one entry sets its key or is an issue; a bad frame gap also falls back to the default |
| SettingsFiles.TakeLine | crates/acui-app/src/settings.rs:265-300 | one line does what it says, without its line end |
| SettingsFiles.Load | crates/acui-app/src/settings.rs:247-304 | a load is the fold of what its lines say, in line order, with numbered issues |
| SettingsFiles.LastOf | crates/acui-app/src/settings.rs:408-411 | the last line of a key |
| SettingsFiles.ReplaceLine | crates/acui-app/src/settings.rs:414-421 | one line replaced with its own line end, the others kept |
| SettingsFiles.AppendLine | crates/acui-app/src/settings.rs:422-433 | an entry appended after the text, ended first, or after the header of a new file |
| SettingsFiles.WithKey | crates/acui-app/src/settings.rs:404-436 | a save's text is the joined lines it describes |
| SettingsLaws.SavedSplits | crates/acui-app/src/settings.rs:404-449 | the saved text's lines are the lines the save made |
| SettingsLaws.SaveThenLoad | crates/acui-app/src/settings.rs:241-437 | after a save a load gives the saved value, every other setting as it was, and the issues of every other line under their own numbers |
| SettingsLaws.OtherWarningsStay | crates/acui-app/src/settings.rs:241-304 | a load after a save still warns about every bad line but the one replaced, of the same key too |
| SettingsLaws.OtherLinesKept | crates/acui-app/src/settings.rs:401-436 | a save keeps every other line byte for byte in its place; one that appends keeps the whole text |
| SettingsLaws.SavingTwice | crates/acui-app/src/settings.rs:404-436 | saving twice is saving the last value |
| SettingsLaws.ReplacedGiven | crates/acui-app/src/settings.rs:258-301 | replacing a key's last line changes that setting alone |
| SettingsLaws.TwoSavesLoad | crates/acui-app/src/settings.rs:346-437 | saves of two settings both load, and give the same settings in either order |
| SettingsLaws.SaveChoice | crates/acui-app/src/settings.rs:346-360 | the text written back loads as the file did with the choice put, and keeps every other line, or the whole text when it appends |
| SettingsKeys.LoadGives | crates/acui-app/src/settings.rs:247-304 | a load gives each path and the frame gap as its key's last line says, and language, text size and theme as their key's last line that names one, else the first run's |
| SettingsKeys.LoadWarns | crates/acui-app/src/settings.rs:247-304 | a load warns about every bad line and no other, under its own number, in their order |
| SettingsKeys.FrameGapReads | crates/acui-app/src/workbench/preview.rs:111-114 | a number written out is taken as the frame gap exactly when it is from 2 to 60 |
| SettingsStores.Store.ReadAgain | crates/acui-app/src/settings.rs:375-380 | the text a save starts from is the file's, or nothing for a missing one; when nothing fails it is had unless the file cannot be read as text |
| SettingsStores.Store.Replace | crates/acui-app/src/settings.rs:381-397 | at every crash point the file is as it was or the whole new text; a failure leaves it as it was, and the temporary only if removing it was refused; when nothing fails it is replaced |
| SettingsStores.Store.SaveKey | crates/acui-app/src/settings.rs:367-398 | a save that succeeds saved onto what the file then held; one that is blocked touches nothing; when nothing fails it succeeds exactly unless blocked or the file is no text |
| Interfaces.PairMeets | crates/acui-setup/src/interfaces.rs:83-91 | two ranges' common revision is the greatest both hold, and exists exactly when one does |
| Interfaces.AgreementIsGreatest | crates/acui-setup/src/interfaces.rs:563-585 | what several ranges agree on is the greatest revision all hold, and none only when there is none |
| Interfaces.AgreeIffPairsDo | crates/acui-setup/src/interfaces.rs:559-585 | several ranges agree exactly when every two of them meet |
| Interfaces.AgreementIsLeastPair | crates/acui-setup/src/interfaces.rs:559-585 | what they agree on is the least of what the pairs would settle on |
| Interfaces.UnmetWhenNotHeld | crates/acui-setup/src/interfaces.rs:524-600 | an edge lists something exactly when it does not hold, and a negotiation settles exactly when it does |
| Interfaces.ListedWhenNotHeld | crates/acui-setup/src/interfaces.rs:622-687 | nothing is listed exactly when every edge holds |
| Interfaces.ListsEveryUnmet | crates/acui-setup/src/interfaces.rs:622-699 | every failure of every edge is listed |
| Interfaces.OnceHolds | crates/acui-setup/src/interfaces.rs:688-693 | each failure is listed once and none is dropped |
| Interfaces.SettledWhenAllHold | crates/acui-setup/src/interfaces.rs:700-702 | when every edge holds every negotiation has its result |
| Interfaces.EdgesListed | crates/acui-setup/src/interfaces.rs:622-683 | the list is the edges' failures in the order of the check |
| Interfaces.Failures.Silent | crates/acui-setup/src/interfaces.rs:524-534 | each party that does not speak is listed |
| Interfaces.Failures.NegotiatePair | crates/acui-setup/src/interfaces.rs:537-555 | a pair's failures and result |
| Interfaces.Failures.AgreeAll | crates/acui-setup/src/interfaces.rs:560-585 | a group's failures and result |
| Interfaces.Failures.ContainWritten | crates/acui-setup/src/interfaces.rs:588-600 | a containment's failures |
| Interfaces.Failures.CheckSlot | crates/acui-setup/src/interfaces.rs:656-687 | what a new slot needs and its Runtime lacks |
| Interfaces.Failures.CheckBundles | crates/acui-setup/src/interfaces.rs:650-653 | every pack against the next Runtime and this installer |
| Interfaces.Failures.CheckEdges | crates/acui-setup/src/interfaces.rs:622-683 | every edge's failures in order, and the four results |
| Interfaces.Failures.DrainOnce | crates/acui-setup/src/interfaces.rs:688-693 | the list with each failure once |
| Interfaces.Check | crates/acui-setup/src/interfaces.rs:610-715 | it passes exactly when every edge holds and its lines are reported; a refusal lists every unmet edge once; the branch without a result is never taken; a close is given exactly with a previous Runtime |
| Interfaces.ReadingMoreNeverRefuses | crates/acui-setup/src/interfaces.rs:83-91 | lowering any component's least revision never turns acceptance into refusal |
| InterfaceMeaning.HoldsExactlyWhenCompatible | crates/acui-setup/src/interfaces.rs:622-687 | every edge holds if and only if the components are compatible, said of their ranges alone: who must read what whom writes, and who must meet |
| InterfaceMeaning.ListedNames | crates/acui-setup/src/interfaces.rs:524-600 | whatever is listed names the edge's own parties, by what is wrong with them |
| InterfaceMeaning.NamesListed | crates/acui-setup/src/interfaces.rs:524-600 | every party that does not speak, and every pair that does not meet or read, is listed |
| InterfaceMeaning.ControlIsNegotiated | crates/acui-setup/src/interfaces.rs:700-702 | the control settled on is the greatest revision both hold, and cold exactly when that is 0 |

## Left out

- The JSON and archive codecs, sha256, the content digest and the byte limits of a read: constructors of a
  datatype, an injective digest, and a read that may fail.
- Loading a process's installation from the environment: the contract crate is not part of this model; what
  it loads is taken to be decoded from the bytes given, with its files there under their recorded sha256.
- `commit_from_stdin`, and how paths are made absolute: a configuration comes rebased, and of a provider
  manifest `Rebased` is some function of its bytes.
- The lock files and the processes that wait for them: one writer at a time is how `Writer` is used.
- Generations.Writer.RestoreBeforeStart: of a plan of another installation, that what it puts into active.json
  is a whole selection here, which is not so; the files of that other installation are not part of this model.
- Generations.Writer.Materialize: a slot's tree is one node, its MEMBERS.json; whether the slot is free, by its
  lock and the files other processes hold open, is a parameter.
- Generations.Writer.Reselect: the folder names are numbers, so a folder whose name does not parse is
  not there, and no two folders spell one number.
- Manager.Root.ReplaceManager: the identity folder is one node with two files; whether the manager is free is a
  parameter, and whether an identity vouches for a program is a function of the three contents.
- Bundles.Folder.Unpack: a part is the map of its files; that two names may differ only in case is not part of
  the model, and the folders a file lies in come with it.
- Sealed packs of the first bundle layout, the reading of a bundle's index, and the report of each step, but
  for its failing.
- LedgerView.ViewModel.TakeWindow: positions are unbounded naturals; the source's are 64 bits wide.
- The pages' filters and how a query is assembled; which routine event types the ledger itself leaves out.
- `frame_group::basis`, and pixel sizes as 32-bit floats.
- Skins.Skins.ApplyBeforeShow: the maximised state and the frame's measures, which no level depends on.
- Skins.Skins.SetTheme: the saving of the theme, which is `SettingsStores`.
- Every call into the native layer; what a fade and a glass look like.
- StartRuns.RunStart: the words of every line; a log is the list of its lines, and what an outcome line's JSON
  says is a function of its text.
- UnlockRuns.Unlock: the words of its line; trimming and reading the report's JSON is a function of the output.
- CloseProtocol.WhatACloseComesTo: of the workbench alone; a ledger window's close is `Skins`.
- SettingsLaws.TwoSavesLoad: that the two texts are the same is not so, since new lines come in the order saved.
- `request_shutdown` and its retries.
- SettingsFiles.Load: paths are kept as text and not resolved; a file that cannot be read is `SettingsStores`.
- Interfaces.Check: the components' declarations are parsed ranges; the lines reported for each component are
  one flag.
- The Slint pages, the language tables, the network, and the model in `model/`.
