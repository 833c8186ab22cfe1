# What the shared library promises, proved

A Dafny model of the parts of this repository that decide what happens to somebody's
games, saves and settings, with proofs of what those parts promise. `dafny verify
dfyconfig.toml` checks all of it. Nothing here is run.

**The shared game library.** Many members (seats, and the host's own Steam library) hold
writable copies of games; one pool holds the copy everybody gets. A pass of `Sync` takes
into the pool what is finished and newer anywhere, and then hands everything in the pool to
every member that has not turned it down. A ledger remembers what was handed over, what was
declined and what is withheld. `PoolModel` says what every round of every loop of a pass
does, any of whose clones may fail; `Pools.Pool` is the program over it, method by method;
`PoolSteps`, `PoolSafety`, `PoolForward`, `PoolFolders`, `PoolRuns`, `PoolTitles` and
`PoolFixpoint` are the theorems over whole passes and whole runs, during which the members
change their libraries as they like; `PoolClear` says which rounds go well when no step of
the disk fails, `PoolChoices` what decides whether a copy is taken or handed over, with the
numbers and conditions written out; `PoolExamples` holds the inputs at which something else
happens than one would wish.

**The clone underneath it.** A copy is built beside its place, the seat's saves are moved
over into it and the copy is swapped in, or all of that is taken back. `Clone.Directory` is
the file system one clone works in: a tree with names and modification times, where every
step that changes something may fail. `CloneTrees.Disk` counts the steps that did: where
none did, a call fails exactly when it has a reason to, and succeeds otherwise. Reading is
exact (`lstat`, listing, and the opens of
the walk), which the code relies on where it takes any error of `lstat` for "not there".
`FileTree` and `SeatPrivate` say which directories belong to the seat and what a folder's
version measures, `FolderVersions` what that comes to over the files; `CloneMeasure` says
exactly when a copy measures as its source.

**Text edits that mean tree edits.** `Vdf` is the reader of Steam's configuration as a
machine over characters and as the loop the code has. `VdfEdits` shows that every offset the
reader keeps is exact and that text put at one of them changes the tree there and nowhere
else; `VdfPrint` that every tree, however it is laid out, reads back as itself. On that rest
the two settings the daemon writes: `SteamPlay` is the code, `SteamRuns` what each call comes
to, twice over and after the other, `SteamFresh` the same from an empty file, `SteamKinds`
exactly when `SetCompatTool` achieves what it is for, `SteamLines` what either writes where
the block is not first on its line, `SteamChoice` which values are left as they are, name by
name. `Manifests` and `LibraryFolders` do the same for the manifest rewriter and the library
list, `SteamFolders` for the list in the layout Steam gives it.

**Smaller cores.** `Limiter` bounds how often one address may try a password over any run.
`FolderSetup` proves which setup scripts can ever run, over every interleaving of deliveries,
approvals, removals and runs, and of changes to what lies in the members, which is part of
the record. `Sunshine` inverts the command printer. `Anchored` compares
opening a directory through somebody else's files with pathname resolution (section 4.13 of
the Base Definitions of IEEE Std 1003.1-2017).

What the results assume, because the code decides it:

- What is proved of titles assumes nothing about folders. Their maximum and their fixpoint
  hold for libraries in which no two titles share an install directory and none is called
  like a copy moved aside (`.polyseat-old`; `PoolTitles.SoundTitles`).
- A copy of a shared folder need not measure as what it was made of. The saves it takes over
  lie outside the measure only where it is a wine prefix itself
  (`CloneMeasure.CloneIsSeenIff`, exact). Results that need it ask it of each copy a pass
  makes (`PoolFolders.MeasuresOf`), which the two trees show before the clone
  (`PoolFolders.LandsOf`): nothing is carried, or every save has a prefix to land in. A pass
  that first brings a prefix into the pool is such a pass. Where all copies of a folder have
  their prefixes in the same places it holds of every pass and stays so
  (`PoolShapes.ShapedRunLands`). What clones leave of the copies they move aside, and every
  step of them that may fail, is part of the model (`PoolModel.Leaves`).
- Where no step of the disk fails and the libraries are there, `Sync` meets a problem
  exactly when a round wants a copy that cannot be made (`PoolClear.AbleRun`): of a tree
  with a device or a socket, or one whose saves have no way to where they go. Under plain
  names titles always can where they are files, directories and links
  (`Clone.FreshCloneIff`), and folders where wine prefixes lie in the same places
  (`PoolClear.RegularIsSmooth`).
- Sync is not a fixpoint after every pass that reports no problem. `PoolFixpoint.FoldersRest`
  says what must not be left to be done; `Pools.SyncTwice` has it as the exact condition. Two
  things are left. Whether the copy moved aside could be removed is not looked at
  (`internal/library/clone.go:403-405`); what is left of it in a member is a folder like any
  other to the next pass, which harvests it (`PoolExamples.LeftoverIsLeft`). And a copy that
  measures older than what it was made of is made again (`PoolFolders.TakenAgainIff`,
  `PoolExamples.UnlandedIsNoFixpoint`). Titles are not concerned: what they are is read from
  manifests.
- The recorded version of a folder can fall, in two ways. A clone that fails and cannot rename
  the old copy back leaves the record without a copy, and then any settled copy is taken
  (`internal/library/pool.go:719-722`, `PoolExamples.RecordFalls`). And a clone that goes well
  over the pool's wine prefix, from a member's copy without a registry, leaves the pool's
  saves inside the measure and the member's newer files out (`PoolExamples.BareIsTaken`). It
  falls at just the steps that store a copy measuring older than the record
  (`PoolFolders.RecordFallsIff`), which are those of the first way where copies measure as
  they should (`PoolFolders.LowerIsOlder`). Titles fall back in the first way only
  (`PoolForward.BuildFallsIff`).
- Manifests in a member are filed under the id they declare, as Steam files them. For those
  the pool files itself this is `Manifests.FiledUnderOwnId`.
- A pass reads the clock once, and clones and measures what does not change meanwhile. The
  order in which the names of a directory, the titles of a library and the keys of a map
  come is left open everywhere.
- The comment at `internal/library/pool.go:1707-1709` says that the pool does not overwrite
  the copy of a member that declined a title and has installed it itself. The code
  (`internal/library/pool.go:904-911`) updates any older copy that can be updated, declined or
  not: `PoolSafety.DeclinedIsDelivered` is such a copy, and `PoolSafety.DeclinedIsUpdatedIff`
  says exactly when. What is proved besides is that a declined title is not delivered while
  the member has none.
- An uninstall withholds a title exactly when it was found under a name
  (`PoolSafety.UninstallWithholds`).
- After a clone that was taken back the old copy is the very tree it was, unless setting the
  time of one of its directories failed as well; then it is that tree but for such times.
- The offsets of `Vdf` count characters. A key is compared with one of the daemon's own,
  which are ASCII, under the two extra characters that fold to ASCII letters.
- The edits of Steam's configuration are edits of the tree when the block they go into is the
  first thing on its line (`SteamSettings.Sited`): the code takes everything before a key on
  its line for indentation. Whole pairs and blocks there are written again
  (`SteamLines.LineCopied`); where braces there do not balance, the file cannot be read
  afterwards (`SteamLines.ScreenIsLost`, `SteamLines.CompatIsLost`), as a store and its
  customization on one line show (`SteamLines.OneLineIsLost`).
  `SetCompatTool` does not look whether what it finds is a block or a value, and
  `SteamKinds.CompatHoldsIff` says that it sets what it should exactly when it is the right
  one.

## Model

| member | source | states |
|---|---|---|
| FileTree.MeasureAt | internal/library/folder.go:175-196 | The measuring walk returns the version of the tree: the newest time and the byte count of everything in it that is not the seat's, whatever order names come in |
| FileTree.MeasureTree | internal/library/folder.go:198-253 | The recursive half of the walk adds exactly the measured part of the tree below a directory to what it was given |
| SeatPrivate.PrivateDirsAt | internal/library/private.go:103-116 | What is recorded as the seat's own is exactly the set of seat private directories of the copy |
| SeatPrivate.PrivateDirsApart | internal/library/private.go:123-150 | No reported directory lies inside another one |
| SeatPrivate.PrivateIff | internal/library/private.go:123-150 | A directory is reported exactly when it is called users, lies in a drive_c that has a registry beside it, and in no other such directory |
| SeatPrivate.SeenIsWithoutPrivate | internal/library/folder.go:198-253 | What measuring leaves out is exactly what the walk reports |
| SeatPrivate.PlayingKeepsTheVersion | internal/library/private.go:52-150 | Any change below the seat's own directories leaves the folder's version and the set of those directories as they were |
| FolderVersions.NewestIs | internal/library/folder.go:175-253 | The time in a version is the latest of the folder and everything in it that is not the seat's, and is the time of one of these |
| FolderVersions.BytesAre | internal/library/folder.go:198-253 | The bytes in it are those of the files, summed over the entries that are not the seat's |
| CloneTrees.CloneTree | internal/library/clone.go:625-680 | The staged copy of a tree is the tree without the directories that are to be carried, links and empty directories included; if no step fails it is made exactly when nothing in that tree is a device or the like |
| Clone.Directory.EnsureRel | internal/library/clone.go:508-557 | The way to a carried directory is opened or made, keeping for every directory on it the time it is to have, a made one that of its counterpart |
| Clone.Directory.Restore | internal/library/clone.go:611-623 | Every directory time that was kept is put back, going on after a failure |
| Clone.Directory.CarryOne | internal/library/clone.go:423-499 | One save directory moves from one tree to the same place of the other, unchanged, and every directory touched has its time again |
| Clone.Directory.CarryPrivate | internal/library/clone.go:423-499 | The directories it says it moved are in the new tree and no longer in the old, all others are where they were |
| Clone.Directory.Rollback | internal/library/clone.go:255-408 | Taking back: the old copy whole at its own name or moved aside, or, where a save could not go back, every save in exactly one of the two trees |
| Clone.Directory.SwapOver | internal/library/clone.go:255-408 | From the old copy set aside: the new tree with the saves in it, or one of the outcomes of taking back |
| Clone.Directory.CloneAt | internal/library/clone.go:255-408 | With every changing step allowed to fail: the new tree with each of the seat's directories unchanged in place; or the old copy whole; or every such directory in exactly one of the copy aside and the staging directory; no other name touched. If no step fails it is the first, and nothing is left aside, exactly when the source is a directory, its tree can be copied and each save has a free way to its place |
| Clone.FreshCloneIff | internal/library/clone.go:625-680 | Where there was nothing before, that is exactly when the source is a directory with nothing but files, directories and links in it, at any depth |
| CloneMeasure.CloneIsSeenIff | internal/library/clone.go:423-623 | A clone over a copy with saves measures as its source, the saves still outside the measure, exactly when the source is a wine prefix wherever a save is carried to |
| CloneMeasure.CloneMeasures | internal/library/folder.go:175-253 | Among copies with wine prefixes in the same places a clone measures exactly as its source, for every set of saves, and is such a copy again |
| Pools.Pool.HarvestFrom | internal/library/pool.go:593-682 | One library is harvested by the rounds of the model, in some order, and the report says what they say |
| Pools.Pool.Harvest | internal/library/pool.go:547-567 | Everything present is marked as handed over before anything is taken |
| Pools.Pool.HarvestFolders | internal/library/pool.go:692-753 | The folder half of the harvest, by the rounds of the model |
| Pools.Pool.Distribute | internal/library/pool.go:842-965 | Everything whole in the pool is offered to one member, by the rounds of the model |
| Pools.Pool.DistributeFolders | internal/library/pool.go:757-839 | Every recorded folder is offered to one member, by the rounds of the model |
| Pools.Pool.Sync | internal/library/pool.go:439-544 | A pass is a harvest of what is there followed by a distribution; met by no problem it has a round for every title and folder of every library and member, and no round of it ended its loop; if no step fails and every library is there it meets no problem exactly when every copy it wants can be made |
| Pools.SyncGoesWell | internal/library/pool.go:439-544 | And it meets none where every tree holds files, directories and links only, under plain names and with the wine prefixes of each folder in the same places |
| PoolClear.RegularIsSmooth | internal/library/clone.go:255-408 | There every copy of every round can be made, over the whole pass, and is |
| PoolChoices.TakesExactly | internal/library/pool.go:593-632 | A title is taken exactly when Steam has finished with it, its files are there, it was left alone for long enough, is not withheld, and its build is, as a number of 64 bits, greater than that of the copy the pool holds whole |
| PoolChoices.GivesExactly | internal/library/pool.go:866-925 | And handed over exactly to a member with a lower build that is not in use, or with none and no mark; in use it waits, and gone it is declined |
| PoolChoices.TakesFolderExactly | internal/library/pool.go:712-722 | The same for a folder, by newest time and then by size |
| PoolChoices.GivesFolderExactly | internal/library/pool.go:785-839 | And for handing one over |
| PoolChoices.RecordsExactly | internal/library/pool.go:712-750 | The pool's record of a folder changes exactly with a copy that came and could be measured, to what it measures |
| PoolChoices.FolderKeyIff | internal/library/pool.go:39-52 | A key is a folder's exactly when it begins with folder: and then it is that folder's |
| PoolChoices.InUseIsKept | internal/library/pool.go:842-965 | Over any pass, whatever clones fail: while a member is in use no title it has is touched |
| PoolChoices.InUseFolderIsKept | internal/library/pool.go:757-839 | And no folder |
| Pools.Pool.RemoveLocked | internal/library/pool.go:1116-1156 | Removing from the pool takes the title's manifest and files, or the folder and its record |
| Pools.Pool.FindHolders | internal/library/pool.go:1184-1354 | The members holding the title and those using it, or that one could not be looked at |
| Pools.Pool.Uninstall | internal/library/pool.go:1184-1354 | The loop over the members and the pool refines the uninstall step of the model |
| Pools.Pool.Readmit | internal/library/pool.go:1397-1408 | Afterwards the title is not withheld and every other one is as it was; it says whether it had been, and nothing else of the ledger changes |
| Pools.Pool.OfferAgain | internal/library/pool.go:1462-1471 | Afterwards the seat has no mark for that title; every other mark of every seat and the rest of the ledger are as they were |
| Pools.Pool.Forget | internal/library/pool.go:1476-1483 | Afterwards the seat has no mark for anything; the marks of the others and the rest of the ledger are as they were |
| PoolSteps.WithheldOutStep | internal/library/pool.go:593-632 | Every step keeps it true that no withheld title has a manifest in the pool |
| PoolSteps.WithheldNotHandedOver | internal/library/pool.go:842-965 | A pass reports no move of a withheld title and no library that lacks it gets it |
| PoolSteps.WithheldStaysOut | internal/library/pool.go:1397-1408 | Over any run of steps without its readmission, members reacquiring it or not, a withheld title is handed to nobody |
| PoolSafety.UninstallAllOrNothing | internal/library/pool.go:1184-1354 | If a member using the title holds it, or an unjoined source has it, nothing changes anywhere, and the answer names just the members using it |
| PoolSafety.UninstallLeavesNone | internal/library/pool.go:1184-1354 | Without error no listed member and not the pool holds the title and no seat keeps a mark for it |
| PoolSafety.UninstallKeepsOthers | internal/library/pool.go:1412-1459 | Other titles stay installed wherever they were |
| PoolSafety.UninstallWithholds | internal/library/pool.go:1184-1354 | The uninstalled title is withheld exactly when it was found under a name, the pool's or else that of the last member it was found at, and under that name |
| PoolSafety.UninstallGoesThrough | internal/library/pool.go:1184-1354 | With no step failing it succeeds exactly when the key is safe as a name, no unjoined source has it, every member can be looked at, whoever holds it can be updated, and its directories are safe names |
| PoolSafety.DeclinedPass | internal/library/pool.go:842-925 | A declined title absent at a member is not given to it by a pass, and the mark survives |
| PoolSafety.DeclinedStaysDeclined | internal/library/pool.go:1698-1715 | Over any run until the mark is cleared, no pass delivers the declined title to the member while absent |
| PoolSafety.GoneIsDeclined | internal/library/pool.go:842-925 | A title with a mark, absent now and in the pool, is declined by the distribution and not restored |
| PoolSafety.SeenThenGone | internal/library/pool.go:546-567 | Present at one pass and gone at the next while the pool has it: declined and not restored |
| PoolSafety.DeclinedFolderStaysDeclined | internal/library/pool.go:757-839 | The same for a declined folder over any run, whatever clones fail in it |
| PoolSafety.GoneFolderIsDeclined | internal/library/pool.go:757-839 | A folder with a mark, absent now and in the pool, is declined by the distribution and not restored, whatever clones fail |
| PoolSafety.FolderSeenThenGone | internal/library/pool.go:692-839 | A folder present at one pass and gone at the next while the pool has it: declined and not restored |
| PoolSafety.OfferedIsGiven | internal/library/pool.go:1462-1471 | A whole title a member lacks is given exactly when it has no mark for it, and so is given after it was offered again |
| PoolSafety.DeclinedIsUpdatedIff | internal/library/pool.go:842-925 | A member with a decline on record is given the title exactly when it has an older build of it, can be updated, and the pool holds it whole |
| PoolSafety.DeclinedIsDelivered | internal/library/pool.go:1698-1715 | A declined title, present at the member in build 1, which a pass overwrites with the pool's build 2 and reports as delivered |
| PoolForward.PassOnlyForward | internal/library/pool.go:593-682 | Whatever fails, at every step a title held whole is left or replaced by a strictly newer build |
| PoolForward.BuildFallsIff | internal/library/pool.go:593-682 | Whatever fails, the pool's build of a title falls exactly at a step that takes an older build of it while its files are missing |
| PoolForward.BuildNeverFalls | internal/library/pool.go:593-682 | Over a pass no loop of which stopped a whole title stays whole at the same or a newer build |
| PoolForward.HarvestIsMaximum | internal/library/pool.go:593-682 | After a harvest no loop of which stopped the pool's build of a title is the maximum of what it held whole and what every eligible library it read had, in whatever order, and is one of these |
| PoolForward.HarvestIsLatest | internal/library/steam.go:60-84 | As numbers: where they are numbers, the pool's build after it is one, and is at least every eligible one and the one the pool held whole |
| Titles.NewerBuildIff | internal/library/steam.go:60-84 | One build is newer than another exactly when both are decimal numbers of 64 bits, sign and zeros in front allowed, and its number is the greater |
| Titles.NewerIsGreater | internal/library/steam.go:66-84 | Of two numbers of 64 bits as they are printed, one build is newer exactly when its number is greater |
| Titles.ParsesIff | internal/library/steam.go:66-80 | A text is read as a number exactly when it is that number written in decimal, and within 64 bits |
| PoolFolders.RecordNeverFalls | internal/library/pool.go:692-753 | Over a pass no loop of which stopped, and in which each copy made of the folder measures as what it is made of, the pool keeps a recorded folder, and its recorded time and size do not fall |
| PoolFolders.LandsOfMeasures | internal/library/clone.go:423-623 | Every copy a pass makes of a folder measures as what it is made of when the saves it takes over land in it, which the two trees show before each clone |
| PoolFolders.RecordFallsIff | internal/library/pool.go:692-753 | Whatever fails, the record of a folder falls exactly at a step that stores a copy whose clone measures older than the record |
| PoolFolders.LowerIsOlder | internal/library/pool.go:719-722 | Where that copy measures as its source, such a step is one that stores an older copy while the pool has none at its name |
| PoolFolders.RecordsFallIff | internal/library/pool.go:692-753 | Over any pass, whatever fails: it falls at some step exactly when some step stores a copy measuring older than it, and otherwise is not lower at the end |
| PoolFolders.TakenAgainIff | internal/library/pool.go:692-753 | A copy that was stored is to be taken from the same member again exactly when it measures older than what it was made of |
| PoolFolders.GivenAgainIff | internal/library/pool.go:757-839 | A copy that was delivered is to be delivered there again exactly when it measures older than the record |
| PoolExamples.RecordFalls | internal/library/clone.go:348-350 | A pass in which the record falls: a clone that fails and leaves the old copy aside, and then an older copy |
| PoolExamples.BareIsTaken | internal/library/pool.go:692-753 | A round in which it falls though nothing fails and the pool has its copy: a copy without a registry taken over a wine prefix |
| PoolExamples.UnlandedIsNoFixpoint | internal/library/pool.go:439-544 | Such a round makes up a whole pass that leaves the same folder to be taken again |
| PoolFolders.FolderHarvestReaches | internal/library/pool.go:692-753 | After a harvest no loop of which stopped, and whose copies of the folder measure as they should, the record is not behind any settled copy that had its round |
| PoolRuns.BuildNeverFallsInARun | internal/library/pool.go:1020-1067 | Over any run of passes no loop of which stopped, changed sources and cleared marks, the members changing their libraries and folders in between, a whole title stays whole at the same or a newer build |
| PoolRuns.RecordNeverFallsInARun | internal/library/pool.go:692-753 | Likewise for a recorded folder whose copies measure as they should, its record always being what the pool's copy measures, whatever the members do to theirs |
| PoolRuns.RunsOnlyForward | internal/library/pool.go:593-682 | Over any run of steps, whatever fails, a title held whole is at every step left, replaced by a strictly newer build, or removed by name |
| PoolRuns.RecordFallsInARunIff | internal/library/pool.go:692-753 | Over any run, whatever clones fail and whatever the members do, a record falls exactly when some step stores a copy measuring older than it |
| PoolRuns.RunLowerIsOlder | internal/library/pool.go:719-722 | In runs whose copies measure as they should these are the steps that store an older copy of what the pool has lost |
| PoolTitles.TitlesAreFixpoint | internal/library/pool.go:439-544 | After a whole pass no loop of which stopped, a second one over unchanged libraries, verdicts and flags moves no title and changes none and no mark of one, however far it gets, whatever fails in it and whatever the folders are |
| PoolFixpoint.SyncIsFixpoint | internal/library/pool.go:439-544 | Where copies of folders measure as they should, such a second pass reports empty and changes nothing, however far it gets, as long as what clones left aside in the members is marked and unsettled |
| PoolFixpoint.SyncIsFixpointIff | internal/library/pool.go:439-544 | Whatever copies measure, a whole second pass reports empty and changes nothing if and only if no folder is left unmarked, to be taken, or to be delivered |
| PoolFixpoint.FoldersRestIff | internal/library/clone.go:401-407 | Where copies measure as they should, that is so if and only if every copy left aside in a member is marked already and too new to be taken |
| PoolShapes.ShapedRunLands | internal/library/pool.go:692-839 | Among libraries whose copies have their wine prefixes in the same places every save lands in every round, whatever clones fail, and they stay such libraries |
| PoolFixpoint.LeftoverIsTaken | internal/library/pool.go:692-753 | A copy that a good clone into a member left aside is taken by the next pass as a folder of its own once it is settled |
| PoolExamples.LeftoverIsLeft | internal/library/clone.go:401-407 | There is such a clone: it succeeds, reports no problem and leaves the copy |
| PoolTitles.SyncConverges | internal/library/pool.go:842-965 | After a whole pass no loop of which stopped each member is not behind the pool on each whole title, or has declined it, or is listed as pending |
| PoolFixpoint.FoldersConverge | internal/library/pool.go:757-839 | And so on each folder the pool has whose deliveries measure as they should, at each member that takes part in that side |
| Pools.SyncTwice | internal/library/pool.go:439-544 | Two calls of Sync, the first met by no problem: the second moves no title, whatever problems it meets; it reports empty and changes nothing if no folder is left to be marked, taken or delivered, and only then if it meets no problem |
| Pools.SyncLeavesToRest | internal/library/pool.go:439-544 | Where copies measured as they should in the first call, none is exactly when what clones left aside is marked and unsettled |
| Pools.SyncBringsTitles | internal/library/pool.go:439-544 | After a call of Sync met by no problem each member is up to date with every title the pool holds whole, or has declined it, or is in the report as waiting for it |
| Pools.SyncBringsFolders | internal/library/pool.go:439-544 | And so with every folder whose deliveries measure as they should |
| Vdf.ParseVdf | internal/seat/steamplay.go:73-157 | The reader's loop computes what the machine over single characters says, errors included |
| VdfEdits.SpansAreExact | internal/seat/steamplay.go:33-52 | Of every text that reads: each value's span cuts out exactly its quoted text, each insertion offset is just past its own block's brace, where that block was open and empty, and no two offsets are the same |
| VdfEdits.InsertReads | internal/seat/steamplay.go:311-313 | Text put just past a block's brace adds its nodes first in that block and moves every later offset, and nothing else |
| VdfEdits.ReplaceReads | internal/seat/steamplay.go:235-235 | A value written anew changes that value and the offsets behind it, and nothing else |
| VdfPrint.ParseWritten | internal/seat/steamplay.go:73-157 | Every tree, with any blanks, newlines and comments between its tokens, reads back as itself with everything where it was put |
| Text.EqualFoldIff | internal/seat/steamplay.go:57-65 | A key of the file is one of the daemon's exactly when it is the same but for the case of letters, two more characters counting as an s and a k |
| SteamTrees.AimedMeans | internal/seat/steamplay.go:57-65 | An edit at the node where the way along a path ends is the edit of the tree along the first match of each key |
| SteamSettings.ChangeMeans | internal/seat/steamplay.go:190-308 | The edited text reads as the tree with one setting added or replaced and every other key, value and order kept |
| SteamSettings.MappingBlockIs | internal/seat/steamplay.go:320-325 | The printed mapping is a layout of the mapping tree |
| SteamSettings.GlobalBlockIs | internal/seat/steamplay.go:332-339 | The printed entry for everything else is a layout of its tree |
| SteamSettings.CustomizationBlockIs | internal/seat/steamplay.go:356-372 | The printed switch is a layout of its tree |
| SteamTidy.ChangeTidy | internal/seat/steamplay.go:160-164 | A file in which every block starts its line stays one |
| SteamProofs.CompatIs | internal/seat/steamplay.go:190-236 | The branches of SetCompatTool are the one edit where the way along its path ends |
| SteamProofs.ScreenIs | internal/seat/steamplay.go:257-308 | The branches of SetScreensaverOff are that edit for its path, failing exactly when something is of the wrong kind |
| SteamRuns.CompatSetsOne | internal/seat/steamplay.go:178-236 | SetCompatTool gives the parsed input with exactly the one setting added or replaced; it leaves the file alone exactly when the tool is named already or is somebody's own |
| SteamRuns.ScreenSetsOne | internal/seat/steamplay.go:238-308 | The same for SetScreensaverOff, which fails and changes nothing exactly when the store is missing or a kind is wrong |
| SteamChoice.NameDecides | internal/seat/steamplay.go:225-235 | A name that is there stays, and the file with it, exactly when it is the tool's or is not empty and does not begin with proton-cachyos; any other is replaced, and nothing else |
| SteamChoice.ExperimentalStays | internal/seat/steamplay.go:185-189 | So proton_experimental stays |
| SteamChoice.OldNameGoes | internal/seat/steamplay.go:178-189 | And proton-cachyos-11.0-20260703-slr-x86_64_v3 goes |
| SteamChoice.SwitchDecides | internal/seat/steamplay.go:257-308 | The switch stays exactly when it is 0 already; any other value becomes 0, and nothing else changes |
| SteamChoice.FromNothing | internal/seat/steamplay.go:341-352 | What is written for an empty file, block by block |
| SteamRuns.CompatTwice | internal/seat/steamplay.go:178-236 | A second SetCompatTool returns the very text of the first |
| SteamRuns.ScreenTwice | internal/seat/steamplay.go:238-308 | A second SetScreensaverOff returns the very text of the first |
| SteamRuns.CompatKeepsUsable | internal/seat/steamplay.go:190-236 | SetCompatTool puts its setting in place and leaves the other as it was, in a file both can work on |
| SteamRuns.ScreenKeepsUsable | internal/seat/steamplay.go:257-308 | And the other way round |
| SteamRuns.BothHold | internal/seat/steamplay.go:190-308 | Both settings hold after both calls, in either order |
| SteamFresh.CompatFromNothing | internal/seat/steamplay.go:341-352 | From an empty file SetCompatTool writes exactly the one setting and the blocks it lives under |
| SteamFresh.ScreenFromNothing | internal/seat/steamplay.go:374-384 | From an empty file SetScreensaverOff writes its setting and an empty Steam block |
| SteamFresh.BothFromNothing | internal/seat/steamplay.go:341-384 | From an empty file both settings hold after either order |
| SteamKinds.CompatHoldsIff | internal/seat/steamplay.go:202-235 | SetCompatTool, which never reports it, puts the setting in place exactly when what there is of its way is of the right kind |
| SteamLines.LineCopied | internal/seat/steamplay.go:159-164 | Whole pairs and blocks before a block's key on its line are written again inside the block, before the new line |
| SteamLines.ScreenIsLost | internal/seat/steamplay.go:159-164 | Where more braces are opened than closed before that key, or fewer, what SetScreensaverOff writes can no longer be read, and it reports success |
| SteamLines.CompatIsLost | internal/seat/steamplay.go:159-164 | The same for SetCompatTool |
| SteamLines.OneLineIsLost | internal/seat/steamplay.go:257-308 | There is such a file: a store with an empty customization on one line |
| Text.TrimSpaceIs | internal/library/steam.go:194-274 | A line is trimmed of white space at either end and of nothing else |
| Manifests.ParseManifest | internal/library/steam.go:194-274 | The reader's loop computes the fields at depth 1 and the six scalars, errors included |
| Manifests.ParsedIs | internal/library/steam.go:194-274 | Which field comes from which key, in either case, the last one counting, and exactly when there is no manifest: no number for an id, or a directory that is no plain name |
| Manifests.Rewrite | internal/library/steam.go:349-381 | The rewriter's loop rewrites line by line |
| Manifests.RewriteKeepsFields | internal/library/steam.go:325-381 | For every manifest that parses, its rewrite parses to the same fields but the two that are reset, unless a line became too long for the scanner |
| Manifests.OtherLinesKept | internal/library/steam.go:341-381 | Every line at another depth, and every line that is no such field, is handed on as it is |
| Manifests.LineReset | internal/library/steam.go:325-381 | The value becomes 0 exactly where the key is lastowner or lastplayed, each letter in either case; every other line stays |
| Manifests.LastOwnerIsReset | internal/library/steam.go:325-338 | So Steam's own line for the owner hands on a 0 |
| Manifests.NeutralisedIff | internal/library/steam.go:325-338 | No other key does |
| Manifests.ManifestHandedOn | internal/library/steam.go:325-381 | Of a manifest as Steam writes it: the same fields in the same order, those two 0 |
| Manifests.RewriteTwiceIff | internal/library/steam.go:349-381 | Rewriting again changes nothing exactly when no rewritten line ends in a carriage return |
| Manifests.RewriteTwice | internal/library/steam.go:349-381 | In particular on text without carriage returns |
| Manifests.FiledUnderOwnId | internal/library/pool.go:978-1006 | The manifest handed on declares the id it is filed under, and one file name stands for one id |
| LibraryFolders.DropLibraryFolder | internal/library/steam.go:397-461 | The loop over lines computes the filtered and renumbered list, or the input and false when no entry names the path |
| LibraryFolders.DropIsFilter | internal/library/steam.go:383-461 | On a well-formed list the output reads back as the list without the entries naming the path |
| LibraryFolders.KeptIs | internal/library/steam.go:449-454 | The k-th entry left is the k-th that was spared, numbered k, with its block and indentation; all other lines stay |
| LibraryFolders.DropTwice | internal/library/steam.go:397-461 | A second call finds nothing more |
| SteamFolders.FolderTakenOut | internal/library/steam.go:383-461 | Of the file Steam writes for some folders and their titles: the file for those without the one dropped, numbered from 0, or the very text if it is not among them |
| Limiter.Sources.Attempt | internal/auth/auth.go:471-484 | A try is let through only when its record allows it and is counted before it is; otherwise nothing changes and there is time to wait |
| Limiter.Sources.FailedKey | internal/auth/auth.go:496-514 | One more in the record or in a new one, past the free tries with a time to wait for; other records go only to make room |
| Limiter.CountIs | internal/auth/auth.go:496-514 | What one more try comes to, in numbers: five free, then 2, 4, 8, 16, 32 and 64 seconds, from the start again after fifteen minutes of quiet |
| Limiter.Sources.MakeRoom | internal/auth/auth.go:523-545 | Afterwards there is room; only lapsed records went and at most one live one, the longest unheard, of a full table |
| Limiter.Sources.AllowKey | internal/auth/auth.go:444-461 | The answer, the time left to wait, and the lapsed record dropped |
| Limiter.TriesAreBounded | internal/auth/auth.go:383-514 | Over any run in which a bucket is neither cleared nor evicted, at most 11 tries and one for every 64 seconds are let through, lapses included |
| Limiter.CallsAreBounded | internal/auth/auth.go:383-545 | The same bound for the tries of one bucket over any sequence of calls for whatever buckets, as long as none clears it or pushes out its live record |
| Limiter.PushedOut | internal/auth/auth.go:516-545 | A call for another bucket pushes a live record out only of a full table, and only the one heard from longest ago |
| FolderSetup.RunsOnlyWhatWasAllowed | internal/seat/foldersetup.go:77-95 | Over every interleaving, members changing their files included: what runs is what then lay at that member, a plain executable file of at most 1 MiB, and its hash was, when a round began before, allowed for the folder in the version that last arrived there, and nothing had taken that back |
| FolderSetup.Setups.Expect | internal/seat/foldersetup.go:206-219 | One step of the record, atomic among all others |
| FolderSetup.Setups.Drop | internal/seat/foldersetup.go:222-237 | One member's wait is forgotten |
| FolderSetup.Setups.Forget | internal/seat/foldersetup.go:243-258 | The approval and every wait of one folder are forgotten |
| FolderSetup.Setups.ListDue | internal/seat/foldersetup.go:280-309 | Exactly the runs waiting with the allowed version, each once, with the allowed hash |
| FolderSetup.Setups.ApproveFolderSetup | internal/seat/foldersetup.go:873-913 | Allowed exactly when the pool's script still has the hash that was shown, for the version the pool has now |
| FolderSetup.Setups.Arrived | internal/seat/foldersetup.go:429-473 | A delivered folder waits, or takes back the wait of its old version when what lies there is nothing to run |
| FolderSetup.Setups.RunFolderSetup | internal/seat/foldersetup.go:550-640 | What runs is what the try found at the member, with the hash that was allowed when the round began; found missing, not plain, not executable, too long or with another hash it is not run and no longer waits; others may act at any time meanwhile |
| FolderSetup.Setups.TryRun | internal/seat/foldersetup.go:566-620 | The same of what comes after the try is noted; a wait of the host is never dropped because its member is gone |
| FolderSetup.Setups.Settle | internal/seat/foldersetup.go:517-541 | No waiting run is tried or started twice in one call, everything that was due when the last round began has been tried, and it ends when nothing new arrives |
| Sunshine.SunshineCommand | internal/seat/desktopgames.go:283-301 | The printed line, and false exactly for a command with a quote or none at all |
| Sunshine.StartsWhatWasMeant | internal/seat/desktopgames.go:274-301 | Expanding, splitting and stripping as described turns every printed line back into its command, whatever the environment |
| Sunshine.LinesAreDistinct | internal/seat/desktopgames.go:283-301 | Distinct commands are printed as distinct lines |
| Anchored.WalkAnchored | internal/library/nofollow.go:470-518 | One pass: the directory, the path to try next, or an error |
| Anchored.OpenAnchored | internal/library/nofollow.go:446-465 | Ends within 40 passes, and every link it followed lay in a directory only root can write |
| Anchored.OpensWhatResolves | internal/library/nofollow.go:436-518 | For paths without `..` and links whose `..` come first, it opens exactly what pathname resolution reaches over anchored links |
| Anchored.UpsBehindALink | internal/library/nofollow.go:476-476 | Behind any clean directory, a link in it and any number of `..`, it opens what the rest of the path names from the directories above the link, and resolution what it names from those above the directory the link leads to |
| Anchored.UpsAreTakenAsText | internal/library/nofollow.go:476-476 | Where nothing follows the `..` it opens the directory that resolution reaches exactly when these two are one |

## Left out

- The Incus client, subprocesses, probes, HTTP, TLS, password hashing and the embedded scans: foreign calls, or easy.
- Block sharing, byte counts of a clone, ownership and permissions: a clone copies content; `Result` is not modelled.
- Messages, problem texts, log lines and line numbers of errors: an error is only that there is one.
- Loading and saving the JSON records: kept as the fields of a class.
- `shadercache` and `downloading`, the preparation of a member's directories, and a `common` or `shared` that is a link or a file.
- Resolving the path given to AddSource: a changed list of sources is one step of a run.
- A member changing files while they are cloned or measured.
- Clone.Directory.EnsureRel: a look at the time of a made directory's counterpart that fails is silent in the code, which then leaves the made directory its own time (`internal/library/clone.go:561-576`); here that look does not fail.
- Clone.Directory: a handle on a directory is the name it was opened under, so what renaming a directory does to handles held on it is written into the steps.
- FolderSetup.Setups: the record is one map from member and folder, so that the code takes an emptied inner map away is not seen; that the bytes hashed are the bytes run; the sorted order of due runs; a restart of the daemon.
- FolderSetup.Setups.Settle: that a run was tried does not mean that it ran; a run that waits for a member that is switched off is not claimed to happen, since a wait is dropped by name and not by version.
- Limiter.CallsAreBounded: says nothing across a success or across a live record pushed out by thousands of other addresses, both of which restore the budget; buckets are strings, the masking of addresses is not modelled, and no bucket is called by the empty string.
- Sunshine.StartsWhatWasMeant: what Sunshine does to lines nobody printed, beyond what the comment says, is a guess that no result rests on.
- Manifests.RewriteKeepsFields: the six fields are kept as text; the length of a line counts characters; keys are put into lower case as far as ASCII names can be told.
- LibraryFolders.DropTwice: for a path of one line that is no bare number; the entry numbered by the path would be taken for it.
- SteamRuns.BothHold: for files in which every block starts its line and what there is of either setting is of the right kind.
- SteamLines.LineCopied: for the last line of the switch; the longer blocks repeat the same text on each of their lines. A line that begins inside a string, or whose braces balance without its being whole pairs and blocks, is not treated.
- Vdf.ParseVdf: a node keeps the offset of its key instead of its indentation, which is read off the text where it is used.
- Anchored.OpenAnchored: a path is the list of its parts; permissions other than who can write a directory are not modelled.
