# A model of ROX-Filer's plain state and algorithms

ROX-Filer is a desktop file manager. Most of it draws; this project models the parts that decide
something, and proves what they keep. `dafny verify dfyconfig.toml` checks all of it.

- **The directory cache** (`DirSpec`, `DirInvariants`, `DirTheorems`, `DirDoubles`, `DirShown`,
  `DirNotices`, `Directory`). `dir.c` scans a directory incrementally for the windows that watch it. The
  windows see only ADD, REMOVE and scan events. The cache is a state machine on values, with one function
  for each entry point, and a class whose methods update the fields step by step and are proved to refine
  those functions. Over every run, whatever the file system answers, each window shows exactly the known
  items that pass its filter, less the names a merge has lost, plus items whose removal is still to be
  announced. A name is lost exactly when one batch holds it both as new and as gone, and displayed twice
  exactly when one batch holds it twice; the end of every scan repairs both. What a window displays has
  been restatted since the directory was listed, or is queued for it, unless an attach overlooked it.
- **Copy, move and delete** (`FileTree`, `ActionWorld`, `ActionConflict`, `ActionAuto`, `ActionSteps`,
  `ActionMove`, `ActionCopy`, `ActionDelete`, `ActionResults`, `ActionConsent`, `ActionAnswers`,
  `ActionOverlap`, `ActionTwice`, `ActionRivals`). The file system is a map from paths to nodes; the bytes
  the user's answers arrive as, the failures of system calls and the order of directory listings are
  arbitrary. Refusals, failures and the end of the parent are recorded by the system calls and questions
  themselves, and what a copy or a deletion leaves is decided by that record. So are agreements and the
  cases in which nobody has to be asked: without consent nothing is replaced, made, moved or deleted, and
  consent is traced to the bytes that the user's answers arrive as (`ActionConsent`, `ActionAnswers`). A
  move conserves every file, a copy is an overlay, survivors of a deletion are closed under ancestors; and
  when nothing fails, what stays behind is exactly what was refused or could not give way. The procedures
  may be called as `do_move` and `do_copy` call them, also with a destination that contains the source;
  `MoveSafe` and `CopySafe` say when the laws hold there. `ActionSteps` takes any run of a move apart into
  what it does to the tree, and has a law for each file, whatever the destination. `ActionAuto` gives the
  runs that are left to a policy as functions, and `ActionOverlap`, `ActionTwice` and `ActionRivals` use
  them to show what goes wrong otherwise: a file is lost in some run exactly when something else in the
  source can come to stand in its place.
- **The message stream** between an action's child process and its window (`Messages`).
- **Desktop icon placement** (`DesktopGrid`, `Desktop`, `DesktopPixels`), with the bound of four cells for
  each icon, and said in pixels.
- **The recursive search** of `rox-find.c` over directories that may contain each other (`Search`).
- **The collection widget** (`CollectionSpec`, `Collection`): loops that have no bound but a cached count,
  in-place compaction, a cursor, and two grid layouts.
- **Smaller cores**: the repair of a directory view (`ViewSync`), Back and Forward (`History`), the recent
  directories (`Bookmarks`), bulk renaming (`BulkRename`, `Substitution`), and the wallpaper workers
  (`Wbar`). `DirViews` joins `ViewSync` and what a view does with added and removed items to the directory
  cache; `Basics` holds what several modules share.

Where the program updates something in place the model is a class whose methods do the same; the
properties over whole runs are lemmas about the functions those methods are proved to compute. A `pick` or
`no` or `declined` that a method returns is ghost: it names the choice or the refusals that its statement
is about.

## Where the code and its words differ

- `insert_item` means to ignore "." and ".." (dir.c:597-599) but compares with a newline, where
  `dir_rescan` compares with the end of the string; `DirSpec.Ignored` follows the code.
- So the names it ignores are those that begin with one or two dots and a newline: such an item stays the
  blank one that the listing made of it (`DirNotices.IgnoredIff`).
- `dir_attach` promises to find out which items the new window cares about, but not when a rescan is due
  that then cannot read the directory: flagged items that only this window displays stay blank
  (`DirShown.OverlookedStays`).
- `dir.h` says that `needs_update` is cleared when scanning starts. `dir_rescan` clears it first and then
  may fail to read the directory, in which case no scan starts; the model does as the code does.
- `do_move` and `do_copy` promise that a path is not moved or copied into itself, but their guard lets
  through a destination that contains the source. A copy can then change its source: it leaves it alone in
  every run exactly under `CopySafe` (`ActionOverlap.CopyKeepsSourceIff`). In a move a file of the source
  can be destroyed by another: in some run exactly when that can come to stand in its place
  (`ActionRivals.NeverLostIff`). And one whose counterpart lies in the source can be moved a second time
  (`ActionTwice.MovesTwice`). `ActionOverlap.OverlapLosesSource`, `ActionTwice.FileMovedTwice` and
  `ActionOverlap.OverlapChangesSource` are whole runs. Moving /a/a to / is safe unless /a/a/a is a
  directory.
- `insert_item` takes an item that is not known for one that is not there, and does not look among the
  pending ones: restatted twice in one batch it is displayed twice until a scan ends
  (`DirDoubles.RepeatShowsTwice`).
- `do_rename` checks again "just in case" that nothing has the new name, but access() does not see a
  dangling symbolic link, and rename() replaces it (`BulkRename.PlanLosesLink`).
- The check of bulk renaming compares names as they are spelled, so two rows can lead to one place ("b"
  and "./b"); the second then fails halfway through (`BulkRename.TwoSpellingsCollide`).
- A second reflow of the desktop can move an icon (`Desktop.WideIconMoves`): one so wide that the bounds
  pull it off its grid cell to a place that happens to be free.
- With "one file system" and roots on several devices, a directory without a device number can hide
  entries from a later root (`Search.UnknownDeviceHidesEntry`); `Search.CompleteIff` says exactly when no
  root leaves anything out.
- A spring-loaded opening can put two equal pages next to each other in the history
  (`History.SpringSpoilsBack`).

## Model

| member | source | states |
|---|---|---|
| DirInvariants.MergeAgrees | ROX-Filer/src/dir.c:419-460 | After a merge each view is exactly the filtered contents less the names missed, and a name is newly missed exactly when the batch had it both as added and as removed. |
| DirInvariants.InsertKeeps | ROX-Filer/src/dir.c:589-679 | Restatting one item, found, changed, new or gone, keeps known, pending and gone items apart and every view in agreement. |
| DirInvariants.RemoveMissingKeeps | ROX-Filer/src/dir.c:527-558 | Dropping what a listing does not name keeps agreement and leaves exactly the known items that are listed. |
| DirInvariants.QueueKeeps | ROX-Filer/src/dir.c:306-315 | Queueing flagged items keeps the rule that nothing on the recheck list is still flagged, however many windows queue. |
| DirInvariants.RelistIsListing | ROX-Filer/src/dir.c:930-990 | Right after the second merge of a successful rescan the known items are exactly the names listed, all flagged, with nothing pending, gone or queued. |
| DirInvariants.RescanKeeps | ROX-Filer/src/dir.c:888-1010 | A rescan, successful or not, keeps agreement, clears the request, and after a listing leaves scanning, the idle callback and pending work for somebody equivalent. |
| DirInvariants.RecheckKeeps | ROX-Filer/src/dir.c:375-414 | A recheck keeps agreement and the equivalence of scanning, idle callback and work, also when it ends the scan and starts the next; a request that remains is covered by a running scan. |
| DirInvariants.SetIdleKeeps | ROX-Filer/src/dir.c:695-718 | Starting or stopping the idle callback, with the first recheck made at once, establishes that equivalence. |
| DirInvariants.AttachKeeps | ROX-Filer/src/dir.c:140-182 | Attaching a window keeps the whole invariant, including for the new window. |
| DirInvariants.DetachKeeps | ROX-Filer/src/dir.c:185-214 | Detaching a window keeps the whole invariant. |
| DirInvariants.StepKeeps | ROX-Filer/src/dir.c:105-123 | Every enabled event keeps watcher agreement, the scan machine and the promise that a requested rescan is covered by a scan, a timeout or the absence of watchers. |
| DirInvariants.RunKeeps | ROX-Filer/src/dir.c:105-718 | The same over every run from any state that satisfies the invariant. |
| DirInvariants.RunsFromNew | ROX-Filer/src/dir.c:825-845 | The same over every run of a new directory. |
| DirTheorems.MergeExact | ROX-Filer/src/dir.c:419-460 | A window that has missed nothing shows the filtered contents after a merge if and only if no name it shows was in the batch both as new and as gone. |
| DirTheorems.ScanEndShowsAll | ROX-Filer/src/filer.c:589-593 | Whatever was lost or doubled before, a step that ends a scan leaves every window with exactly the known items that pass its filter, each once. |
| DirTheorems.ScanEnds | ROX-Filer/src/dir.c:375-414 | An undisturbed scan ends after exactly one callback for each queued name, in any order, and then what is known is what was known or pending less the queued names that had vanished. |
| DirTheorems.RefreshShowsDirectory | ROX-Filer/src/dir.c:888-1010 | A rescan followed by its idle callbacks shows every window the directory as it was read, less the displayed names that had vanished when restatted; it scans exactly while a name is queued. |
| DirTheorems.ReportedChangeShown | ROX-Filer/src/dir.c:105-123 | From any state of a run in which a change was reported, during a scan or not, once only timeouts and idle callbacks follow: one of them can run until the cache knows exactly the directory and every window shows what passes its filter of it. |
| DirTheorems.AttachScans | ROX-Filer/src/dir.c:140-182 | Attaching a window while a scan runs does not end the scan. |
| DirTheorems.RequestHonoured | ROX-Filer/src/dir.c:888-990 | A step that clears a request for a rescan has read the directory: if it could be read, the cache afterwards agrees with the listing on every name but the one restatted since. |
| DirTheorems.QueueKeepsWork | ROX-Filer/src/filer.c:481-492 | Queueing items of interest leaves the number of flagged items plus queued names unchanged. |
| DirTheorems.RecheckFalls | ROX-Filer/src/dir.c:375-414 | Every recheck lowers that number, so a scan without new requests ends. |
| DirTheorems.StepUnmissed | ROX-Filer/src/dir.c:589-679 | An event makes no window lose a name unless it restats a name that is back while its removal is unannounced. |
| DirTheorems.RunUnmissed | ROX-Filer/src/dir.c:419-460 | Over every run without such an event each view lies between the known items that pass its filter and those plus the gone items. |
| DirTheorems.RevivalLosesName | ROX-Filer/src/dir.c:419-460 | That condition is needed: a run of a new directory, of four events, after which a known item is not displayed. |
| DirShown.StepStated | ROX-Filer/src/dir.c:589-679 | Every event keeps this: a known item that is not flagged is on the recheck list or has been restatted since the directory was listed, and a flagged one is neither. |
| DirShown.AttachAsks | ROX-Filer/src/dir.c:140-182 | After an attach that does not rescan no known item that passes the new window's filter is flagged: the window has been asked what interests it. |
| DirShown.StepShown | ROX-Filer/src/dir.c:105-123 | An event leaves no known item flagged that passes some window's filter, unless an attach reads the directory in vain and overlooks one, or a removal is unannounced when the name is back. |
| DirShown.RunShown | ROX-Filer/src/dir.c:105-718 | The same over every run. |
| DirShown.RunsRestat | ROX-Filer/src/dir.c:825-845 | So over every such run of a new directory what a window displays is on the recheck list or has been restatted since it was listed, and has been restatted when no scan runs; but for the names that insert_item gives up on. |
| DirShown.OverlookedStays | ROX-Filer/src/dir.c:166-175 | That condition is needed: what an attach overlooks is displayed and stays flagged, with nothing queued. |
| DirNotices.RestatTells | ROX-Filer/src/dir.c:589-679 | What a restat makes of the name and no other: there, it is known or pending and not flagged; not there, it is not known; and it is to be announced, with a notification under way, exactly if it is new, changed or gone. |
| DirNotices.IgnoredIff | ROX-Filer/src/dir.c:594-599 | The names that a restat gives up on are those that begin with one or two dots and a newline. |
| DirNotices.RescanUnread | ROX-Filer/src/dir.c:913-935 | Of a directory that is gone nothing stays known, nor displayed but for what is yet to be announced; one that cannot be opened or whose windows are to be closed keeps what it had; and just when there is an error to report it is set. |
| DirNotices.RescanRead | ROX-Filer/src/dir.c:904-911 | Reading the directory clears the error. |
| DirNotices.RequestOnTheWay | ROX-Filer/src/dir.c:681-690 | A request made while a scan runs is remembered, one from the file monitor waits for its timeout, any other is honoured at once; the directory is on its way to being shown in each case. |
| DirNotices.UpdateShowsDirectory | ROX-Filer/src/dir.c:681-690 | A request when no scan runs, and the idle callbacks that follow, end with each window showing the directory as it was read, less the queued names that had vanished. |
| DirNotices.RunsTell | ROX-Filer/src/filer.c:583-617 | Over every run of a new directory the indicator of every window says whether a scan runs; and whatever is new, changed or gone has a notification under way, after which nothing is left to announce. |
| DirNotices.RunsHide | ROX-Filer/src/filer.c:498-545 | Over every run a window without hidden items displays no name with a leading dot; and when a scan has ended, all other known names. |
| DirDoubles.InsertTwice | ROX-Filer/src/dir.c:612-628 | A restat makes a second pending item of a name exactly when the name is pending already and still there. |
| DirDoubles.MergeDoubles | ROX-Filer/src/dir.c:419-460 | After a merge a window displays a name more than once if and only if it did so before or the batch had it twice, and its removal was not in the batch. |
| DirDoubles.RepeatDoubles | ROX-Filer/src/dir.c:291-300 | So the second restat of a pending name, merged at once, shows it twice in every window whose filter it passes. |
| DirDoubles.StepSingle | ROX-Filer/src/dir.c:589-679 | No other event doubles a name. |
| DirDoubles.RunSingle | ROX-Filer/src/dir.c:419-460 | Over every run without such a restat no window ever displays a name more than once. |
| DirDoubles.RepeatShowsTwice | ROX-Filer/src/dir.c:612-628 | That condition is needed: a run of a new directory, of four events, after which an item is displayed twice. |
| Directories.Directory.constructor | ROX-Filer/src/dir.c:825-845 | A new directory is empty, wants a rescan, and satisfies the invariant. |
| Directories.Directory.MergeNew | ROX-Filer/src/dir.c:419-460 | The loops over watchers and pending items do what the merge of the state machine does, and empty the pending arrays. |
| Directories.Directory.InsertItem | ROX-Filer/src/dir.c:589-679 | Does what the state machine's insertion does, for ignored, unknown, vanished, changed and unchanged items. |
| Directories.Directory.DirSetScanning | ROX-Filer/src/dir.c:323-353 | Tells every window of the start and the end of a scan, and nobody of a state that does not change. |
| Directories.Directory.DirRemoveMissing | ROX-Filer/src/dir.c:527-558 | Mark and sweep removes exactly the items that are not to be kept, from the cache and from every view. |
| Directories.Directory.DirQueueRecheck | ROX-Filer/src/dir.c:306-315 | Puts a flagged item at the front of the recheck list, on which it was not, and clears its flag. |
| Directories.Directory.QueueInteresting | ROX-Filer/src/filer.c:481-492 | Walking a view in any order queues exactly its flagged items, each once. |
| Directories.Directory.QueueAll | ROX-Filer/src/dir.c:992-1003 | Asking all windows in turn queues exactly the flagged items that some window displays. |
| Directories.Directory.ReadListing | ROX-Filer/src/dir.c:930-990 | Merge, read the names, drop, flag or add, and merge again: together the relisting of the state machine. |
| Directories.Directory.DirRescan | ROX-Filer/src/dir.c:888-1010 | Refines the rescan of the state machine on all outcomes of reading the directory. |
| Directories.Directory.RecheckCallback | ROX-Filer/src/dir.c:375-414 | Takes the first queued name and refines the recheck of the state machine, including the end of the scan and the rescan that may follow. |
| Directories.Directory.SetIdleCallback | ROX-Filer/src/dir.c:695-718 | Refines the state machine; the first recheck is made at once. |
| Directories.Directory.DirAttach | ROX-Filer/src/dir.c:140-182 | Is a step of the state machine and keeps its invariant. `DirShown.AttachAsks` says what the new window is asked. |
| Directories.Directory.DirDetach | ROX-Filer/src/dir.c:185-214 | Is a step of the state machine and keeps its invariant; a window that is not attached changes nothing. |
| Directories.Directory.IdleTick | ROX-Filer/src/dir.c:375-414 | The main loop's call of the recheck callback finds a queued name and is a step that keeps the invariant. |
| Directories.Directory.DirUpdate | ROX-Filer/src/dir.c:681-690 | Is a step that keeps the invariant: the request is remembered while a scan runs. |
| Directories.Directory.DirRescanSoon | ROX-Filer/src/dir.c:118-123 | Is a step that keeps the invariant, with one timeout however many changes are reported. |
| Directories.Directory.RescanTimeoutCallback | ROX-Filer/src/dir.c:105-116 | Is a step that keeps the invariant, and asks to be called again exactly while a scan runs. |
| Directories.Directory.DirCheckThis | ROX-Filer/src/dir.c:230-252 | Is a step that keeps the invariant. |
| Directories.Directory.DirUpdateItem | ROX-Filer/src/dir.c:291-300 | Is a step that keeps the invariant: the item is restatted and the batch merged at once. |
| Directories.Directory.NotifyTimeout | ROX-Filer/src/dir.c:560-572 | Is a step that keeps the invariant. |
| FileTree.RenamedAt | ROX-Filer/src/action.c:2211-2242 | What `mv` to a free place makes of every path: the source's subtree stands at the destination, nothing is at the source, all else is the same. |
| FileTree.RenamedWellFormed | ROX-Filer/src/action.c:2211-2242 | And the result is a tree again. |
| ActionWorld.World.ProcessFlag | ROX-Filer/src/action.c:737-769 | Each byte toggles its own option and no other; the text announcement consumes a line or finds the parent gone. |
| ActionWorld.World.CheckFlags | ROX-Filer/src/action.c:772-799 | Reads some number of toggles in order and nothing else; only the end of the stream makes the process give up. It records that the entry was reached, or that the parent had died by then. |
| ActionWorld.World.Reply | ROX-Filer/src/action.c:805-848 | Under quiet the answer is yes and nothing is read; otherwise it is the first answer in the stream, after the toggles before it, and a refusal is recorded. |
| ActionWorld.World.ConflictReply | ROX-Filer/src/action.c:852-904 | The same for conflicts: a standing policy answers without reading; "all" and "skip" answer and become the policy. |
| ActionConsent.FirstAnswerCounts | ROX-Filer/src/action.c:830-848 | Said in bytes: the first of Y and N, or also of A and S about a conflict, is the answer, whatever toggles come before it; and no byte after it is read. |
| ActionConsent.TextIsNoAnswer | ROX-Filer/src/action.c:760-762 | Nothing in a line of text that is announced answers or toggles anything. |
| ActionConsent.TogglesInvert | ROX-Filer/src/action.c:737-769 | After any bytes without such a line an option is inverted if and only if its letter came an odd number of times. |
| ActionConsent.AnswerFollows | ROX-Filer/src/action.c:805-904 | Reading an answer changes only options whose letters are among the bytes, and each agreement uses up a byte that agrees. |
| ActionConsent.HeardAnswer | ROX-Filer/src/action.c:805-904 | So a question with its answer, on record, has been heard from the parent. |
| ActionConsent.HeardThen | ROX-Filer/src/action.c:805-904 | What has been heard goes on being so over a whole run. |
| ActionWorld.World.Lstat | ROX-Filer/src/action.c:1103-1107 | Finds what is there; if it does not, nothing is there or the failure is on record. |
| ActionWorld.World.OpenDir | ROX-Filer/src/action.c:568-580 | Fails only with a failure on record. |
| ActionWorld.World.Remove | ROX-Filer/src/action.c:1133-1150 | Removes a node that is not a directory with something in it, or changes nothing; a removal that was denied is on record, and nothing else is recorded. |
| ActionWorld.World.ReadDir | ROX-Filer/src/action.c:568-604 | Gives every name of the directory once, in the order that is left to chance. |
| ActionWorld.World.Rmdir | ROX-Filer/src/action.c:2213-2229 | Removes an empty directory or changes nothing; what is not an empty directory stays. |
| ActionConflict.MakeRoom | ROX-Filer/src/action.c:1946-2016 | Goes on only with the destination untouched for a merge or cleared as the policy allows; when nothing fails it goes on exactly when the entry is neither refused nor blocked by what stands there. In any run, what stops it is that, or on record: the entry refused or unreadable, the destination's removal denied, or the parent dead. It goes on only by consent on record: the user is asked about an existing counterpart unless the policy, an earlier answer for all, or "merge" for two directories settles it, and about a new one unless the action is quiet. |
| ActionConflict.Consult | ROX-Filer/src/action.c:1957-2012 | The decision itself: by policy, by the user, or without a question where none is due; each on record. |
| ActionMove.DoMove2 | ROX-Filer/src/action.c:2118-2258 | For every destination the guard of do_move lets through, and every run of answers and failures: the tree is changed only by removing what gives way at a counterpart, by renaming an entry to its counterpart, and by removing an empty directory, and only for entries that get their turn (`Steps`); so what becomes of each file, and which files are never lost, is decided by `ActionSteps.FileKept`, `ActionSteps.FileNotLost` and `ActionRivals.NeverLostIff`. If source and destination are apart, or no directory of the source has the source itself for its counterpart, moreover: each file is unchanged at its source or at its destination, destination entries that no source path names are untouched, and refused entries and their counterparts are as they were; and when nothing fails and the parent lives, an entry is still at its source exactly when it or something above or below it was refused or blocked. A run that is left to a policy is the one of `ActionAuto.Moving`. And in such a move nothing at the destination changes, and nothing leaves the source, without consent; `ActionAnswers` says what that means. |
| ActionMove.MoveContents | ROX-Filer/src/action.c:568-604 | The same for the contents of a directory, in any order of the listing. |
| ActionMove.MergeInto | ROX-Filer/src/action.c:2213-2229 | The same for a merge: the emptied source directory goes exactly when nothing in it was refused or blocked. |
| ActionMove.Rename | ROX-Filer/src/action.c:2230-2242 | The same for a `mv` that may fail, onto a place that has been cleared. |
| ActionSteps.FileKept | ROX-Filer/src/action.c:2118-2258 | Wherever a move goes, whatever the answers and failures: a file or link whose counterpart lies outside the source is afterwards, unchanged, at its source, with its counterpart as it was or removed, or at its counterpart, unless some entry of the source can come to stand in its place, in one step or in several, in each of which its turn comes. |
| ActionSteps.FileNotLost | ROX-Filer/src/action.c:2118-2258 | And any file or link of the source in whose place nothing else can come to stand is afterwards, unchanged, at its source, at its counterpart, or, if that lies in the source, further on: it is never lost. |
| ActionRivals.NeverLostIff | ROX-Filer/src/action.c:2118-2258 | For a file or link that is the only one of its kind this is exact: it is in the tree after every run that is left to a policy, in whatever order, if and only if nothing else in the source can come to stand in its place. The condition is about the tree before the move. |
| ActionRivals.FileKeptIff | ROX-Filer/src/action.c:2118-2258 | And if its counterpart lies outside the source, it is at its source or its counterpart after every such run under exactly the same condition. |
| ActionRivals.RivalLosesFile | ROX-Filer/src/action.c:2118-2258 | If something can, however many times it has to be moved for that, there is a run under "replace all" after which the file is nowhere in the tree. |
| ActionRivals.Brings | ROX-Filer/src/action.c:2213-2242 | Merging one directory into another that is apart from it brings each entry to its counterpart, unless a directory is there, and destroys the file that is there, in any order of the listings. |
| ActionSteps.OutsideKept | ROX-Filer/src/action.c:2118-2258 | And whatever lies outside the source is as it was, unless some entry of the source can come to stand there. |
| ActionSteps.NothingNew | ROX-Filer/src/action.c:2118-2258 | No move brings a node into the tree that was not there before, or makes two of one. |
| ActionSteps.StepsThen | ROX-Filer/src/action.c:568-604 | Such steps can be put together. |
| ActionSteps.StepsChild | ROX-Filer/src/action.c:568-604 | And those for an entry of a directory are steps for the directory. |
| ActionCopy.DoCopy2 | ROX-Filer/src/action.c:1940-2115 | For every destination the guard of do_copy lets through, and every run of answers and failures: if source and destination are apart, or the source has nothing to add to itself, the result is the overlay of the source on the destination except at and below the places where the run stopped or broke; each of these is accounted for, by what blocks it at the destination or by a refusal, a failure or the parent's death on record for it; and when nothing fails and the parent lives, it broke nowhere and stopped exactly at what was refused or blocked. In any case the tree stays a tree, and a run that is left to a policy is the one of `ActionAuto.Copying`. In such a copy nothing at the destination changes without consent; `ActionAnswers` says what that means. |
| ActionCopy.CopyOn | ROX-Filer/src/action.c:2018-2114 | The same for its second half, with an entry that is gone on with. |
| ActionCopy.CopyContents | ROX-Filer/src/action.c:568-604 | The same for the contents of a directory, in any order of the listing. |
| ActionCopy.Create | ROX-Filer/src/action.c:2018-2114 | A directory, link or file is created as a copy, or is not there, or (a file) is left unfinished. |
| ActionDelete.SurvivorsClosed | ROX-Filer/src/action.c:1097-1167 | Survivors are closed under ancestors. |
| ActionDelete.SurvivesRule | ROX-Filer/src/action.c:1097-1167 | An entry survives if and only if it has to stay itself or an entry in it survives. |
| ActionDelete.DoDelete | ROX-Filer/src/action.c:1097-1167 | For every run of answers and failures: what is left of the tree, as it was, is exactly what has to stay and the directories that is in. What has to stay is decided by the record of the run alone: everything at or below an entry that was refused or could not be read, everything in a directory that could not be listed, an entry whose removal was denied, and, if the parent died, what was being worked on and what was never reached. Nothing outside changes, and when nothing fails only refusals are on record. Nothing is gone without consent, and the user has been asked about just what is due. |
| ActionDelete.GoneIff | ROX-Filer/src/action.c:1097-1167 | In every run an entry is gone if and only if it and everything in it was reached and nothing of that has to stay; and what is not gone is as it was. |
| ActionDelete.OnlyRefusals | ROX-Filer/src/action.c:1097-1167 | When nothing fails and the parent lives, an entry survives if and only if something at or below it is at or below a refusal. |
| ActionDelete.MayDelete | ROX-Filer/src/action.c:1097-1127 | Goes on exactly with an entry that is there, can be read and is not refused, while the parent lives, and records which of these it was. And asks whenever the action is not quiet, or the entry is write-protected and the action not forced. |
| ActionDelete.DeleteContents | ROX-Filer/src/action.c:568-604 | The same for the contents of a directory, in any order of the listing. |
| ActionDelete.RemoveEmptyDirs | ROX-Filer/src/action.c:1833-1857 | The same for the removal of emptied source directories, whose record holds failures only. |
| ActionDelete.EmptyDirsIff | ROX-Filer/src/action.c:1833-1857 | In every run it removes a directory if and only if there is nothing at or below it that is not a directory, cannot be read or listed, or may not be removed. |
| ActionDelete.EmptyDirsExact | ROX-Filer/src/action.c:1833-1857 | Without failures: if and only if there is nothing but directories below it. |
| ActionResults.CopyHarmless | ROX-Filer/src/action.c:1940-2115 | A copy that is safe in this sense leaves its source unchanged, keeps every entry that only the destination has, and never removes a directory with something in it. |
| ActionResults.CopiedUnless | ROX-Filer/src/action.c:1940-2115 | In every run an entry is copied or merged, unless one of those causes is there for it or for a directory it is in, or it could not be created. |
| ActionResults.CopyDetermined | ROX-Filer/src/action.c:1940-2115 | Without failures the result is a function of the file system and of the refusals: skipped, merged or copied, entry by entry. |
| ActionResults.CopyOrderFree | ROX-Filer/src/action.c:568-604 | The order in which directories are listed makes no difference to a copy. |
| ActionResults.MoveConserves | ROX-Filer/src/action.c:2118-2258 | In a move that is safe as a whole every file or link is afterwards, unchanged, at its source or at its destination, at both only if the destination's was there before; what the source does not name is as it was. The law for single files in other moves is `ActionSteps.FileKept`. |
| ActionResults.MoveFinishes | ROX-Filer/src/action.c:2118-2258 | When nothing fails, is refused or blocked, the source is gone and the destination is the source laid over what was there. |
| ActionResults.SafeFilesKept | ROX-Filer/src/action.c:2277-2287 | In a safe move every file of the source meets the condition of that law, but for one whose counterpart is the source itself, which is blocked. |
| ActionAnswers.CopyNeedsYes | ROX-Filer/src/action.c:1940-2115 | Under a policy of asking or skipping, if no byte agrees (no Y and no A), everything that was there before a copy is as it was; and if the copy is not quiet nor told to be, the whole tree is. |
| ActionAnswers.MoveNeedsYes | ROX-Filer/src/action.c:2118-2258 | The same for a move: every existing counterpart is as it was; and if it is neither quiet nor merging, nor told to be, the whole tree is. |
| ActionAnswers.CopyByLeave | ROX-Filer/src/action.c:1940-2115 | In every run a place at the destination differs only if it stands for an entry of the source and, if something was there, the policy lets it go, the user agreed to that entry, or had said yes to all before it was weighed; or, if nothing was there, the user agreed or the action was quiet then. |
| ActionAnswers.MoveByLeave | ROX-Filer/src/action.c:2118-2258 | The same for a move; and an entry has left the source only if it, or a directory it is in that was moved as a whole, had such leave, or two directories were merged. |
| ActionAnswers.DeleteNeedsYes | ROX-Filer/src/action.c:1097-1167 | If no byte says yes, a deletion that is not quiet nor told to be leaves the whole tree as it was; and one that is not forced nor told to be leaves every write-protected entry and what it is in. |
| ActionAnswers.DeleteByLeave | ROX-Filer/src/action.c:1111-1127 | In every run an entry that is gone was agreed to, or was reached while the action was quiet, and forced if it was write-protected. |
| ActionAnswers.NoYes | ROX-Filer/src/action.c:805-904 | Without a byte that agrees no agreement is on record. |
| ActionAnswers.OnlyUnasked | ROX-Filer/src/action.c:1957-2012 | Then only directories are merged, under "merge", and only what is new is gone on with, under "quiet". |
| ActionOverlap.CopyKeepsSourceIff | ROX-Filer/src/action.c:2263-2271 | Of all destinations the guard lets through: every run that is left to a policy leaves the source unchanged if and only if source and destination are apart or what the destination would put into the source is no more than directories onto directories and onto directories that do not give way. |
| ActionOverlap.CopyChangesSource | ROX-Filer/src/action.c:1940-2115 | Otherwise there is a run under "replace all", with an order of the listings and at most one place that cannot be written, that changes the source. |
| ActionOverlap.IntruderStays | ROX-Filer/src/action.c:1940-2115 | Whenever the way to an entry that the copy puts into the source is taken first, the source is different at that place when the run ends. |
| ActionOverlap.SafeKeeps | ROX-Filer/src/action.c:1940-2115 | One entry of a safe copy, with all below it, leaves the whole source as it was. |
| ActionOverlap.CopyIntruder | ROX-Filer/src/action.c:1940-2115 | The run of the procedure itself, on any tree with such an entry, changes the source there. |
| ActionOverlap.ClashLosesFile | ROX-Filer/src/action.c:2118-2258 | When a file of the source is the counterpart of another entry of the source, every run under "replace all" that goes to that entry first ends with the file nowhere in the tree. |
| ActionOverlap.MoveClash | ROX-Filer/src/action.c:2118-2258 | The run of the procedure itself does so, on any tree with such a file. |
| ActionOverlap.MovingSteps | ROX-Filer/src/action.c:2118-2258 | A run that is left to a policy keeps the tree a tree and takes only the steps of a move, so the laws of these steps hold of it. |
| ActionTwice.MovesTwice | ROX-Filer/src/action.c:2118-2258 | A file whose counterpart lies in the source, in a place that takes it and that is moved on as a whole, ends at the counterpart of its counterpart in every run under "replace all" that goes to it first; if there is no other like it, it is then neither where it was nor where it should be. |
| ActionTwice.MoveTwice | ROX-Filer/src/action.c:2118-2258 | The run of the procedure itself does so, on any tree with such a file. |
| ActionOverlap.MovingEnds | ROX-Filer/src/action.c:2118-2258 | A move to a destination that contains the source ends, within a depth that the tree bounds. |
| ActionOverlap.CopyingEnds | ROX-Filer/src/action.c:1940-2115 | So does a copy, although it may add to what it copies. |
| ActionOverlap.OverlapLosesSource | ROX-Filer/src/action.c:2277-2287 | A whole run: moving /p/p to / loses the file /p/p/f if /p/p/p/f is reached first. |
| ActionTwice.FileMovedTwice | ROX-Filer/src/action.c:2277-2287 | A whole run: moving /p/p to / takes /p/p/p/b, by way of the empty directory /p/p/b, to /p/b. |
| ActionOverlap.OverlapChangesSource | ROX-Filer/src/action.c:2263-2271 | A whole run: copying /p/p to / creates /p/p/f in the source. |
| Messages.HeaderRoundTrip | ROX-Filer/src/action.c:657-669 | The length that strtol reads back from the four hexadecimal digits is the length that was written. |
| Messages.UpperRoundTrip | ROX-Filer/src/action.c:545-547 | Capital digits are read as small ones are. |
| Messages.StrtolSign | ROX-Filer/src/action.c:545-547 | White space and a plus sign before the digits do not count, and a minus sign changes the sign. |
| Messages.StrtolPrefix | ROX-Filer/src/action.c:545-547 | Nor does 0x before a digit. |
| Messages.Sender.SendMsg | ROX-Filer/src/action.c:657-669 | A message of 0xffff bytes or more writes nothing; any other writes its header and itself; so the pipe holds the wire form of all messages sent. |
| Messages.WireSplits | ROX-Filer/src/action.c:657-669 | The wire form of one list of messages after another is one wire form after the other. |
| Messages.ReceiveSent | ROX-Filer/src/action.c:534-565 | From the bytes of a sent message and anything after it the receiver takes that message and leaves the rest; an empty or 'D' message ends the action. |
| Messages.GuiSide.ReadExact | ROX-Filer/src/action.c:607-619 | However the bytes arrive, it takes exactly the number asked for, or fails at the end of the stream. |
| Messages.GuiSide.FinishAction | ROX-Filer/src/action.c:416-471 | Completion runs once: a second call changes nothing. |
| Messages.GuiSide.MessageFromChild | ROX-Filer/src/action.c:534-565 | One call acts on one whole message or finishes, on whatever bytes the pipe holds. |
| Messages.GuiSide.Pump | ROX-Filer/src/action.c:534-565 | For whatever messages a sender has sent and any chunking of the reads, those before the first that ends the action are acted on in order, oversized ones leave the stream decodable, and completion runs exactly once. |
| Messages.AllHandled | ROX-Filer/src/action.c:473-531 | Whatever a window is sent that is not empty, does not begin with 'D' and has at most 65534 bytes is acted on, in order, up to the first message that is empty or does begin so, or to the end of the stream; longer ones are lost alone. |
| DesktopGrid.SearchFinds | ROX-Filer/src/desktop.c:985-1011 | From any cell on, the search stops at a free cell if there is one ahead and falls back on the first cell otherwise. |
| DesktopGrid.SearchFirst | ROX-Filer/src/desktop.c:998-1008 | And at the first, column by column. |
| DesktopPixels.HitsIff | ROX-Filer/src/desktop.c:936-957 | An icon hits the drives if and only if some pixel lies both in its nominal rectangle, of at least 96 by 78, and in the one kept for them. |
| DesktopPixels.CrowdsIff | ROX-Filer/src/desktop.c:963-977 | Two icons crowd each other if and only if they are less than 92 apart, or the icon size and 48, across, and less than 82, or the same, down. |
| DesktopPixels.FreeIff | ROX-Filer/src/desktop.c:959-978 | A position is free if and only if no pixel of the icon is kept for the drives and it is that far from all placed icons. |
| DesktopGrid.FindFreeFinds | ROX-Filer/src/desktop.c:985-1011 | A free cell is found exactly when the grid has one. |
| Desktop.BlocksFour | ROX-Filer/src/desktop.c:959-978 | One placed icon, wherever it is, blocks at most four cells of the grid. |
| Desktop.RoomMeansFree | ROX-Filer/src/desktop.c:985-1011 | With more than four drive-free cells for each placed icon a free place is found. |
| Desktop.ReflowClear | ROX-Filer/src/desktop.c:1021-1044 | After a reflow each icon is clear of the drives and of all earlier icons, unless every cell was blocked; then it is on the first. |
| Desktop.ReflowSeparates | ROX-Filer/src/desktop.c:1021-1044 | With more than 4(n-1) drive-free cells for n icons all icons are clear of the drives and of each other. |
| DesktopPixels.ReflowPixels | ROX-Filer/src/desktop.c:1021-1044 | After a reflow each icon shares no pixel with the drives and is far from all earlier icons, or every cell was taken and it is on the first; one that was so where the clamp puts it has stayed there; and each is on the screen. |
| DesktopPixels.ClampInside | ROX-Filer/src/desktop.c:917-934 | The clamp puts an icon on the screen, moves it only if it has to, and no further. |
| DesktopPixels.CellInside | ROX-Filer/src/desktop.c:985-1003 | Every cell of the grid is on the screen. |
| DesktopPixels.CellsApart | ROX-Filer/src/desktop.c:990-991 | Icons on different cells do not crowd each other. |
| Desktop.PlaceAgainIff | ROX-Filer/src/desktop.c:1021-1044 | Placing an icon again leaves it where it is if and only if its position is within its bounds, or the clamped one is not free and the search comes back to it. |
| Desktop.ReflowTwiceIff | ROX-Filer/src/desktop.c:1021-1044 | A second reflow moves nothing if and only if that holds for every icon among the earlier ones. |
| Desktop.ReflowTwice | ROX-Filer/src/desktop.c:1021-1044 | So a second reflow moves nothing if every drive-free cell of the grid is within the bounds of every widget that is shown. |
| Desktop.NominalFits | ROX-Filer/src/desktop.c:917-934 | Which is so for widgets of the nominal size or less. |
| Desktop.WideIconMoves | ROX-Filer/src/desktop.c:917-934 | A screen with two icons on which the second reflow moves one of them, from (112,12) to (110,12). |
| Desktop.DesktopItem.ClampTo | ROX-Filer/src/desktop.c:917-934 | Only an icon that is shown is moved, to the nearest position inside the bounds for its widget. |
| Desktop.DesktopItem.FindFreePosition | ROX-Filer/src/desktop.c:985-1011 | The two loops compute the search over the other icons' positions, ignoring the icon itself. |
| Desktop.Occupied | ROX-Filer/src/desktop.c:959-978 | The scan of the list answers whether the position is clear of the drives and of every other icon. |
| Desktop.ReflowItems | ROX-Filer/src/desktop.c:1021-1044 | The loop that moves the icons in place computes the reflow of their positions. |
| Search.SearchJob.MarkVisited | rox-find/rox-find.c:341-368 | Says whether the directory is new, and remembers it. |
| Search.SearchJob.ScanDirectory | rox-find/rox-find.c:370-447 | Ends on every finite graph, visits no directory twice, visits only what it reaches through directories not visited before, reports only what is to be reported there; if not cancelled, it reports all of it and has visited every successor. |
| Search.SearchJob.ScanEntries | rox-find/rox-find.c:399-444 | The same for the enumeration loop over one listing. |
| Search.SearchRoots | rox-find/rox-find.c:449-500 | Whatever the roots and device numbers: a search that is not cancelled has been through exactly the directories `Visits`, in which each root adds what it reaches on paths that avoid what was visited before, and has reported exactly what is to be reported in them, no entry of a directory twice; one that is cancelled has done no more than that. So it reports only what some root leads to, and all of it if that is all that some root leads to. Roots that are not directories are reported, apart from that, exactly when they match. What is reported, a root or an entry, fits what the user has asked for: the type, the sizes, the name and the contents of a regular file, and is not hidden unless that is allowed; and every such entry of a visited directory is reported unless the search is cancelled. |
| Search.FitsIff | rox-find/rox-find.c:409-429 | An entry is reported exactly when it fits that, restriction by restriction. |
| Search.MayEnterIff | rox-find/rox-find.c:434-439 | A search goes down exactly into directories, if it is recursive, not into hidden ones or links unless that is asked for, and stays on one device as far as it is known. |
| Search.VisitedHow | rox-find/rox-find.c:370-447 | Nothing is visited but the roots and, from visited directories, what may be entered. |
| Search.PlacesVisited | rox-find/rox-find.c:449-500 | Every root that is a directory is visited. |
| Search.VisitsClosed | rox-find/rox-find.c:370-447 | And for each visited directory some root has it that all that root may enter there has been visited. |
| Search.ScanVisits | rox-find/rox-find.c:370-447 | A scan that is not cancelled has newly visited exactly what its root reaches on paths that avoid what was visited before. |
| Search.VisitsLed | rox-find/rox-find.c:449-500 | Nothing is visited that no root leads to. |
| Search.CompleteIff | rox-find/rox-find.c:449-500 | Every root, one after the other, leaves nothing out if and only if each reaches what it alone so far leads to without passing through anything that an earlier root leads to. The condition is about the graph and the roots alone. |
| Search.NextRootIff | rox-find/rox-find.c:449-500 | The same for one more root, after roots that left nothing out. |
| Search.FirstRootComplete | rox-find/rox-find.c:449-500 | The first root leaves nothing out, whatever follows it. |
| Search.AlikeComplete | rox-find/rox-find.c:434-439 | The condition holds if no root passes over an entry of a shared directory that a later root goes down into. |
| Search.WhenAlike | rox-find/rox-find.c:434-439 | So nothing is left out without "one file system", when all searched roots are on one device, and when the device numbers are known. |
| Search.UnknownDeviceHidesEntry | rox-find/rox-find.c:434-439 | A search of two roots that does not report an entry to which the second root leads. |
| CollectionSpec.SelectedBounds | ROX-Filer/src/collection.c:1122-1147 | The count is the number of items exactly when all are selected and zero exactly when none is, which bounds the unguarded scans. |
| CollectionSpec.CursorLands | ROX-Filer/src/collection.c:1536-1610 | After a deletion the cursor is on the same item if that is kept, else on its nearest kept predecessor, else gone. |
| CollectionSpec.KeptAll | ROX-Filer/src/collection.c:1536-1610 | Exactly the items that do not meet the test are kept. |
| CollectionSpec.ItemRoundTrip | ROX-Filer/src/collection.c:1750-1782 | In both layouts every item lies inside the grid and its cell leads back to it. |
| CollectionSpec.CellRoundTrip | ROX-Filer/src/collection.c:1750-1782 | And no two cells hold the same item. |
| CollectionSpec.LassoTwice | ROX-Filer/src/collection.c:819-872 | Inverting the same area twice restores every item; selecting it twice is selecting it once. |
| CollectionSpec.LassoExtremes | ROX-Filer/src/collection.c:819-872 | An empty area changes nothing, one as large as the grid everything. |
| CollectionSpec.LassoSplits | ROX-Filer/src/collection.c:819-872 | Two areas side by side, or one below the other, do what their union does. |
| CollectionSpec.NoRowTooMany | ROX-Filer/src/collection.c:143-148 | There is no row more than the items take. |
| CollectionSpec.ClearAnnounced | ROX-Filer/src/collection.c:1184-1220 | A cleared selection is announced exactly when there was something to clear and announcements are not held back; that the selection appears or disappears always is. |
| CollectionSpec.MarkingKeeps | ROX-Filer/src/collection.c:1122-1220 | Selecting all or one and inverting change the selection of each item as they should and nothing else. |
| Collections.Collection.Insert | ROX-Filer/src/collection.c:1081-1103 | Appends an unselected item and keeps the count, the cursor and the signals, also when the array grows. |
| Collections.Collection.ItemSetSelected | ROX-Filer/src/collection.c:1035-1068 | Changes one item's state, keeps the count equal to the number of selected items, and announces exactly the change. |
| Collections.Collection.SelectItem | ROX-Filer/src/collection.c:1110-1113 | Selects one item; counts and announces it if it was not selected. |
| Collections.Collection.UnselectItem | ROX-Filer/src/collection.c:1105-1108 | Unselects one item; counts and announces it if it was selected. |
| Collections.Collection.ToggleItem | ROX-Filer/src/collection.c:1115-1119 | Inverts one item, counts and announces the change, and that it crosses zero when it does. |
| Collections.Collection.NextUnselected | ROX-Filer/src/collection.c:1134-1137 | The unguarded inner loop stops inside the array, at the next unselected item. |
| Collections.Collection.SelectAll | ROX-Filer/src/collection.c:1122-1147 | Selects all items; announces a gain unless all were selected already. |
| Collections.Collection.NextToClear | ROX-Filer/src/collection.c:1204-1206 | The unguarded inner loop stops inside the array, at the next selected item other than the one to keep. |
| Collections.Collection.ClearExcept | ROX-Filer/src/collection.c:1184-1220 | Leaves exactly the given item selected, or none, and announces just that. |
| Collections.Collection.ClearSelection | ROX-Filer/src/collection.c:1223-1229 | Leaves nothing selected; announces a loss unless nothing was. |
| Collections.Collection.InvertSelection | ROX-Filer/src/collection.c:1150-1179 | Inverts every item and the count, and announces a gain or a loss exactly when there is one. |
| Collections.Collection.Compact | ROX-Filer/src/collection.c:1550-1581 | The in-place compaction is the stable filter, with the count and the cursor that belong to it. |
| Collections.Collection.DeleteIf | ROX-Filer/src/collection.c:1536-1610 | The contents are filtered stably, selections and cursor follow, and a loss is announced exactly when the last selected item goes. |
| Collections.Collection.Clear | ROX-Filer/src/collection.c:1073-1076 | Removes everything. |
| Collections.Collection.ProcessArea | ROX-Filer/src/collection.c:819-872 | Selects or inverts exactly the items in the area, each once, in both layouts; announces a gain or loss of the whole and a change if the area holds an item. |
| ViewSync.FilerWindow.Expected | ROX-Filer/src/filer.c:508-522 | Gathers each known item that passes the filter, once. |
| ViewSync.FilerWindow.Mismatch | ROX-Filer/src/filer.c:524-539 | Count, hash set and leftovers together decide whether the view is a permutation of what is expected. |
| ViewSync.FilerWindow.SyncCompleteDirectoryView | ROX-Filer/src/filer.c:498-545 | Whatever the view held, it ends up with each known item that passes the filter once, and it is rebuilt exactly when it was not so already. |
| DirViews.EndScan | ROX-Filer/src/filer.c:589-593 | A window whose view is as the state machine has it is so again after DIR_END_SCAN: the repair of the view is what the state machine takes that event to do. |
| DirViews.AddItems | ROX-Filer/src/view_collection.c:1125-1144 | What DIR_ADD appends to the view is what the state machine takes the event to do. |
| DirViews.DeleteItems | ROX-Filer/src/filer.c:251-265 | What DIR_REMOVE takes out of the view is what the state machine takes the event to do. |
| History.FilerWindow.TidySympath | ROX-Filer/src/filer.c:1547-1559 | The loop strips all trailing slashes but that of the root. |
| History.FilerWindow.HistoryPush | ROX-Filer/src/filer.c:1573-1589 | Pushes onto one list only, not an empty path nor the head again, and drops the oldest entry past a hundred. |
| History.FilerWindow.ChangeTo | ROX-Filer/src/filer.c:1646-1720 | A navigation or a spring-loaded opening changes the page alone; any other change is recorded and cuts off what was ahead. |
| History.FilerWindow.HistoryGo | ROX-Filer/src/filer.c:1601-1629 | Moves one page and keeps the page left on the other list; an empty list changes nothing. |
| History.GoKeeps | ROX-Filer/src/filer.c:1601-1629 | Back and Forward leave the timeline as it is and only move along it. |
| History.GoUndone | ROX-Filer/src/filer.c:1601-1629 | Forward undoes Back and Back undoes Forward. |
| History.GoAnywhere | ROX-Filer/src/filer.c:1601-1629 | After any sequence of them the page is the timeline's entry at the place reached. |
| History.ChangeKeeps | ROX-Filer/src/filer.c:1646-1672 | A new page comes at the end of what was behind, and only with a hundred pages behind is the oldest dropped. |
| History.RunSound | ROX-Filer/src/filer.c:1563-1672 | In every run without spring-loaded changes no two neighbours of the timeline are equal, all are tidy, and Back and Forward together hold at most a hundred pages. |
| History.RunBounded | ROX-Filer/src/filer.c:1563-1672 | In every run, with or without them, the two lists together hold at most a hundred pages, so going Back or Forward never drops one. And neither list holds the same page twice in a row. |
| History.SpringKeepsIff | ROX-Filer/src/filer.c:1664-1672 | A spring-loaded change keeps that if and only if the new page is neither the one before nor the one after. |
| History.SpringSpoilsBack | ROX-Filer/src/filer.c:1664-1672 | A run in which it does not, and Back stays where it is. |
| Bookmarks.DeleteLink | ROX-Filer/src/bookmarks.c:252-252 | Unlinking a node from the doubly linked list leaves the links of all others in order. |
| Bookmarks.History.HistoryRemove | ROX-Filer/src/bookmarks.c:240-255 | List, tail and hash go on describing one duplicate-free list, which has lost the path if it had it. |
| Bookmarks.History.AddHistory | ROX-Filer/src/bookmarks.c:261-291 | Puts the path first, drops its old place and its parent, keeps the first CLAMP(limit, 1, 200) entries; list, tail and hash stay consistent. |
| Bookmarks.History.Trim | ROX-Filer/src/bookmarks.c:285-290 | Evicting from the tail keeps exactly the first entries, and the tail is never missing. |
| Bookmarks.RunLatestFirst | ROX-Filer/src/bookmarks.c:261-291 | After every run of visits the list is ordered by latest visit, headed by the last one, and holds only visited paths into which no visit has gone since. It has no more entries than the limit of the last visit allows, nor than 200, though one at least. |
| Bookmarks.RecentKept | ROX-Filer/src/bookmarks.c:261-291 | A visited path stays on the list until a visit goes into it or as many visits as entries are allowed have followed. |
| BulkRename.Dialog.DoRename | ROX-Filer/src/bulk_rename.c:372-389 | Succeeds exactly when access() finds nothing under the new name and rename() can do it, and changes nothing otherwise. |
| BulkRename.Dialog.Check | ROX-Filer/src/bulk_rename.c:402-467 | Refuses exactly the plans in which a name is used twice, a new name is taken, nothing is to be renamed, or slashes are not confirmed, and names the culprit. |
| BulkRename.NamesAre | ROX-Filer/src/bulk_rename.c:414-436 | The names of a plan are the old names of all rows and the new ones that are asked for. |
| BulkRename.FreeIff | ROX-Filer/src/bulk_rename.c:438-455 | A plan is let through exactly if none of the latter is found by access(), which sees everything but dangling links. |
| BulkRename.Dialog.RenameItems | ROX-Filer/src/bulk_rename.c:391-512 | The rows executed are a prefix whose renames all succeeded; the rows left in the list are exactly the others, beginning with the one that failed. |
| BulkRename.RunRenames | ROX-Filer/src/bulk_rename.c:469-505 | A run of renames to distinct places, finished or cut short, has moved each of its files with what it holds to its new place and touched nothing else. |
| BulkRename.SlashFreeDistinct | ROX-Filer/src/bulk_rename.c:402-467 | Without slashes the check for names that are used twice makes the places distinct. |
| BulkRename.PlanRuns | ROX-Filer/src/bulk_rename.c:469-505 | All renames of a checked plan to distinct places succeed if and only if none of the new places is held by something that access() sees and no earlier row takes away, or by a dangling link where a directory is to go. |
| BulkRename.PlanRunsSlashFree | ROX-Filer/src/bulk_rename.c:469-505 | Without slashes: if and only if no directory is renamed to the name of a dangling link. |
| BulkRename.PlanExact | ROX-Filer/src/bulk_rename.c:469-505 | Any checked plan, slashes or not, is carried out in full without losing an entry if and only if there is room for each new name: its place is free or an earlier row takes its file away, and no earlier row puts a file there. Then every file has kept what it holds. |
| BulkRename.PlanExactSlashFree | ROX-Filer/src/bulk_rename.c:469-505 | Without slashes that is so if and only if no new name belongs to a dangling link. |
| BulkRename.PlanLosesLink | ROX-Filer/src/bulk_rename.c:372-389 | A plan that passes the check and loses a link. |
| BulkRename.TwoSpellingsCollide | ROX-Filer/src/bulk_rename.c:402-467 | A plan that passes the check and stops halfway, because "./b" and "b" are one place. |
| Substitution.Subst | ROX-Filer/src/bulk_rename.c:209-253 | The loop replaces the match by the expansion of the replacement and keeps the rest of the name. |
| Substitution.EscapedIsLiteral | ROX-Filer/src/bulk_rename.c:222-246 | A replacement whose backslashes are escaped is used as it stands. |
| Substitution.References | ROX-Filer/src/bulk_rename.c:222-246 | Between any literal texts a back-reference \0 to \9 is replaced by what its sub-expression matched, or by nothing if that took no part; a backslash before another character stands for that, and one at the very end for itself. |
| Substitution.WholeMatch | ROX-Filer/src/bulk_rename.c:222-246 | Between any literal texts the back-reference \0 puts the match back. |
| Wbar.Desktop.WallpaperChanged | ROX-Filer/src/desktop_wbar.c:308-331 | A request takes the next generation and starts a worker; an empty path is no request. |
| Wbar.Desktop.UpdateThread | ROX-Filer/src/desktop_wbar.c:273-306 | One step of a worker is a step of the protocol. |
| Wbar.CheckExact | ROX-Filer/src/desktop_wbar.c:282-287 | The check lets a worker through if and only if the number of newer requests is a multiple of 2^32. |
| Wbar.StepKeeps | ROX-Filer/src/desktop_wbar.c:273-331 | Every step keeps the lock exclusive, newer workers waiting while one is at work, and the newest request's wallpaper in place once its worker has set it. |
| Wbar.NoOverlap | ROX-Filer/src/desktop_wbar.c:273-331 | Over every interleaving no two workers overlap between setting the wallpaper and restarting wbar. |
| Wbar.LastRequestWins | ROX-Filer/src/desktop_wbar.c:273-331 | Over every interleaving in which, since the last request, no check comes exactly a multiple of 2^32 requests late, after the newest worker: when all are done the last wallpaper set is the newest request's, and a running wbar shows it. |
| Wbar.LastRequestWinsIff | ROX-Filer/src/desktop_wbar.c:273-331 | Over every interleaving, when all are done the wallpaper is that of the worker the check let through last, which is the newest one if and only if no check since the last request came late; so the newest request wins exactly then, or when the late worker was asked for the same wallpaper. |
| Wbar.LateCheckUndoes | ROX-Filer/src/desktop_wbar.c:282-287 | Such a check lets the old worker set its wallpaper over the newest. |
| Wbar.RunKeepsBar | ROX-Filer/src/desktop_wbar.c:288-300 | Over every interleaving: where no wbar ran to begin with none is stopped or started; otherwise one runs or a worker is about to start it again. |
| Wbar.BarInTheEnd | ROX-Filer/src/desktop_wbar.c:273-306 | So when all workers are done a wbar runs if and only if one ran to begin with. |
| Wbar.StoppedBefore | ROX-Filer/src/desktop_wbar.c:290-297 | And none runs when one is started, nor, unless it survived being stopped, while the wallpaper is set for the second time. |
| Wbar.Progress | ROX-Filer/src/desktop_wbar.c:273-306 | Until all workers are done one of them can take a step. |
| Wbar.RunsEnd | ROX-Filer/src/desktop_wbar.c:273-306 | Without new requests the workers take a bounded number of steps. |

## Left out

- Directories.Directory.SetIdleCallback: requires that no rescan is requested when it is to start a scan, which is so at all of its calls; `DirInvariants.SetIdleKeeps` has no such condition.
- ActionMove.DoMove2: where a file that is not lost ends when its counterpart lies in the source depends on what is blocked and on the order of the listings; `ActionSteps.FileNotLost` says it is one of its counterparts, and `ActionTwice.MovesTwice` when it is the second.
- ActionMove.MoveContents: the same.
- ActionMove.MergeInto: the same.
- ActionResults.MoveConserves: is about moves that are safe as a whole; `ActionRivals.FileKeptIff` and `ActionRivals.NeverLostIff` are the exact laws for single files.
- ActionAnswers.MoveNeedsYes: is about moves that are `MoveSafe`; in others the counterpart that the user is asked about can be one that the move itself has made.
- ActionAnswers.CopyNeedsYes: the same, for copies that are not `CopySafe`.
- ActionAnswers.MoveByLeave: the same as for `ActionAnswers.MoveNeedsYes`.
- ActionAnswers.CopyByLeave: the same as for `ActionAnswers.CopyNeedsYes`.
- ActionOverlap.ClashLosesFile: speaks of files that are the only one of their kind, so that "nowhere in the tree" can be said of them.
- ActionRivals.NeverLostIff: the same, and its runs without failures are those that are left to a policy; `ActionSteps.FileNotLost` is about every run.
- ActionCopy.DoCopy2: when the copy is not `CopySafe`, only `Copying` says what becomes of the destination.
- Wbar.LastRequestWins: has a condition on late checks; `Wbar.CheckExact` and `Wbar.LateCheckUndoes` say what happens otherwise.
- BulkRename.PlanExact: takes the place a spelling with slashes leads to as fixed; a rename that changes it, by moving a directory or a link on the way, is not part of this model.
- Search.SearchRoots: takes the directory graph as fixed while the search goes on.
- In the directory cache an item is its name and its NEED_RESCAN_QUEUE flag, and of the number of items of one name only whether it is more than one is kept: types, sizes, times, images and the identity of item objects are left out, and so are DIR_UPDATE and DIR_ERROR_CHANGED events, mount updates and the closing of windows.
- Windows do not attach or detach from inside a callback, which `dir_detach` refuses (dir.c:192).
- The order of names on the recheck list is a set in the state machine; the class keeps the list, and the ghost results name the choices made.
- Files are values without contents, permissions, owners or extended attributes; the time of a directory does not change when its contents do, and copying a link does not keep its time.
- `mv` is an atomic rename that succeeds or leaves everything as it was; moving between file systems is `mv`'s own affair.
- An lstat of what stands at the destination succeeds; other processes do not touch the tree meanwhile.
- The rsync paths (`do_copy_fast`, `do_move_fast`, batch copies), mounting, ejecting and device detection live in other programs.
- The text that 'E' announces, log lines, progress and error counts of an action are not kept.
- What the messages other than 'D' make the window do.
- Loading and saving icon positions, dragging, and `desktop_item_snap`, which adds only the rounding to the grid.
- Expression matching, content tests and file type queries of the search are given with each entry.
- The drawing, scrolling, winking and keyboard navigation of the collection widget, and its `free_item` callback.
- The order in which a view is sorted after its repair.
- `filer_change_to` beyond the history and the path; empty paths are excluded from runs.
- Reading and saving bookmarks, and the menus.
- The regular expression itself, and the dialog of bulk renaming.
- Finding, stopping and starting wbar are steps that do what they say, except that wbar may survive being stopped once; wbar is started by nobody else.
