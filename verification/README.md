# Machines behind a Yocto/AGL layer collection

Models of seven programs of the collection and proofs about them, in Dafny 4.11
(`dafny verify dfyconfig.toml`).

* **pyinotify** (`paths`, `pathmeaning`, `inotify`, `drain`, `autoadd`, `walk`, `rename`, `printing`, `reading`,
  `agreement`, `deliveries`, `managing`, `notifier`): the watch manager and notifier against a kernel that is a finite
  file tree, a table of live watches and an event queue. The specification functions follow the handlers; `notifier.dfy`
  has the objects that are updated in place, each method equal to its specification. On top of it: the drain of the
  queue ends although it feeds itself, recursive auto-watching is complete and announces each entry once, a recursive
  `add_watch` watches exactly the directories below, every event is delivered once as it was, renames are tracked, and
  the two tables of watches agree over every interleaving.
* **jQuery callbacks** (`callbacks`, `callbackstop`, `callbacklist`, `callbackflags`, `deferred`, `deferredprogress`,
  `barrier`, `whendeferred`): the re-entrant callback list with its repaired cursor, the one-shot deferred built on three such
  lists, and the barrier `when`, on its own and over such deferreds. User code that runs between two turns of a loop is
  a script of calls or a sequence of actions, over which every theorem quantifies.
* **codegen** (`expr`, `exprreading`, `stmt`, `headers`, `layout`, `generator`, `gaps`): a printer of syntax trees and a
  reader, written here, that undoes it; the printer as an object with pending newlines and indentation.
* **relocate_sdk** (`bytes`, `relocation`, `relocationproof`, `relocationrun`, `relocationwhole`, `relocationspill`,
  `relocationfile`, `relocationnames`, `relocationsample`, `elffile`): patching an ELF file (System V ABI, chapters 4 and
  5) through a file with a position.
* **CAN simulator** (`vehicle`, `vehiclenumbers`, `vehicleramp`, `vehicleobjects`), **find_dependencies**
  (`dependencies`, `manifest`), **buildstats** names (`recipenames`).

Where the programs do not do what their text or purpose suggests, the model keeps what they do; one lemma says
exactly when it goes right, and another has an input with which it does not:

* coalescing drops an event if an empty name and the name `''` meet (`Reading.CoalescingIsExact`,
  `Reading.CoalescingDropsADifferentEvent`);
* a renamed directory that is not itself watched leaves the paths of the watches below it untrue
  (`RenameTracking.RenameIsTracked`, `RenameTracking.UnwatchedRenameIsMissed`);
* switching on `ignore_events` can lose IN_IGNORED and with it the agreement of the tables (`Agreement.StepAgrees`,
  `Agreement.IgnoringLosesAgreement`);
* an `if` without `else` is printed with an `else:` and nothing below it (`Layout.SourceIsRead`,
  `Layout.IfWithoutElse`);
* an empty set, and an `and` or `or` of fewer than two operands, have the text of another tree
  (`ExpressionReading.RoundTrip`, `ExpressionReading.DegenerateTrees`);
* new library paths that are too long spill out of `.sysdirs` (`RelocationSpill.TablesSpill`,
  `RelocationSample.LongPathSpills`);
* `.sysdirs` without `.sysdirslen` ends in an unbound name (outcome `Crash`), as the initialisation names another
  variable (`RelocationWhole.OutcomeIs`, `RelocationSample.NoLengthsCrash`);
* cruise control can be active while its mode is off (`Vehicles.ActiveWithoutMode`, which has both);
* `split_nevr` guesses (`RecipeNames.NevrRoundTrip`, `RecipeNames.WrongSplit`).

A comment in pyinotify says symbolic links are handled as files; the code asks `isfile` and `isdir`, which follow
links. The model has no links.

The theorems about relocation assume a well-laid file (`RelocationWhole.WellLaid`): headers that can be read, and
interpreter and named sections within the file, apart from each other and from the headers. For such a file the outcome
is known from what it holds (`RelocationWhole.OutcomeIs`); what a normal end achieves is stated for the files that have
one (`RelocationWhole.Completes`) and whose new tables fit (`RelocationRuns.TablesFit`); and, for a second run, for a
prefix that starts with `/` and has no `#` and no NUL (`RelocationProofs.GoodPrefix`).

## Model
| member | source | states |
|---|---|---|
| `Paths.NormRender` | external/poky/bitbake/lib/pyinotify.py:1802-1807 | a stored path (rendered components) is a fixed point of normpath |
| `Paths.JoinRender` | external/poky/bitbake/lib/pyinotify.py:680-681 | joining a rendered directory path and a proper entry name renders the longer component list |
| `Paths.StartsWithIsStrictlyUnder` | external/poky/bitbake/lib/pyinotify.py:776-784 | the string test `startswith(src + os.path.sep)` holds exactly of the paths strictly below src, component by component |
| `Paths.ReprefixRender` | external/poky/bitbake/lib/pyinotify.py:776-784 | re-prefixing the string equals replacing the leading components, and paths not strictly below are unchanged |
| `Paths.RenderInjective` | external/poky/bitbake/lib/pyinotify.py:1802-1807 | two normal paths are equal only if their components are |
| `Drain.CreatedProgress` | external/poky/bitbake/lib/pyinotify.py:661-707 | handling a creation event keeps the state sound and lowers the termination measure although it may queue events |
| `Drain.MovedInProgress` | external/poky/bitbake/lib/pyinotify.py:719-750 | handling IN_MOVED_TO (which may add watches below the arrived directory) keeps the state sound and lowers the measure |
| `Drain.SimulatedWeight` | external/poky/bitbake/lib/pyinotify.py:684-703 | the simulated events of a directory weigh less than the entry they came from: the sum of the subtree sizes of its entries |
| `Drain.StepProgress` | external/poky/bitbake/lib/pyinotify.py:1241-1259 | every pop of process_events lowers a lexicographic measure (events that may disturb the table, watches out of date, summed subtree sizes), so the loop ends on any sound state whatever it appends |
| `Drain.Drained` | external/poky/bitbake/lib/pyinotify.py:1241-1259 | popping until the queue is empty, or until handling raises, ends in a sound state |
| `AutoAdd.SimulatedIs` | external/poky/bitbake/lib/pyinotify.py:684-703 | the simulated events of a freshly watched directory are exactly due for each entry that is a file or a directory, one each |
| `AutoAdd.OpeningStep` | external/poky/bitbake/lib/pyinotify.py:661-707 | one pop that watches a new directory conserves: notes delivered plus notes due, and paths watched plus paths due |
| `AutoAdd.DrainConserves` | external/poky/bitbake/lib/pyinotify.py:1235-1262 | the same conservation over the whole drain |
| `AutoAdd.PendingEntriesAreCompleted` | external/poky/bitbake/lib/pyinotify.py:1235-1262 | draining any queue of pending new entries delivers the multiset of notes due before plus nothing else, watches exactly the paths due, and empties the queue |
| `AutoAdd.DirsAreReachable` | external/poky/bitbake/lib/pyinotify.py:661-707 | the paths due for an entry are exactly the directories reachable from it through directories that the filter does not exclude |
| `AutoAdd.NotesAreEntries` | external/poky/bitbake/lib/pyinotify.py:684-703 | the notes due are the entry's own and one for every file or directory inside a reachable directory, and no other |
| `AutoAdd.NotesOnce` | external/poky/bitbake/lib/pyinotify.py:684-703 | no note is due twice |
| `AutoAdd.NewDirectoryIsAnnouncedOnce` | external/poky/bitbake/lib/pyinotify.py:661-707 | after the creation event of a new directory, each entry of each directory reachable through unexcluded directories is announced exactly once and nothing else is |
| `AutoAdd.NewDirectoryIsWatched` | external/poky/bitbake/lib/pyinotify.py:661-707 | ... exactly those directories become watched, once each, with inherited mask, handler and filter; earlier watches stay as they were |
| `RenameTracking.PathMoved` | external/poky/bitbake/lib/pyinotify.py:752-790 | in the file system, a rename changes the path of every inode below the old place by replacing the leading components, and of no other |
| `RenameTracking.ApplyGood` | external/poky/bitbake/lib/pyinotify.py:752-790 | a rename keeps a file system of unique paths |
| `RenameTracking.PairRecorded` | external/poky/bitbake/lib/pyinotify.py:709-750 | after IN_MOVED_FROM and IN_MOVED_TO the manager has recorded the true old path with the true new one, and the delivered event names both |
| `RenameTracking.RenamedTracks` | external/poky/bitbake/lib/pyinotify.py:752-790 | handling IN_MOVE_SELF makes every stored path true again |
| `RenameTracking.RenameIsTracked` | external/poky/bitbake/lib/pyinotify.py:709-790 | after the events of one rename every stored path is true if and only if the renamed inode is itself watched or has no watch below it |
| `RenameTracking.RunIsTracked` | external/poky/bitbake/lib/pyinotify.py:709-790 | for any run of such renames reported before any was handled, handling all events leaves every stored path equal to the path in the final file system |
| `RenameTracking.UnwatchedRenameIsMissed` | external/poky/bitbake/lib/pyinotify.py:752-790 | an input that fails it: an unwatched directory above a watch is renamed, in a directory whose watch asks for moves, and the watch below goes on storing the old path |
| `RenameTracking.RenamesLeaveWatchesUpToDate` | external/poky/bitbake/lib/pyinotify.py:709-790 | ... and every stored path leads the kernel, in the tree those renames made, to the inode whose descriptor the watch has |
| `Printing.PrintedAlike` | external/poky/bitbake/lib/pyinotify.py:462-481 | the printed text (attributes in alphabetical order, mask in hexadecimal, two quotes for an empty name) determines descriptor, mask and cookie, and the name but for that substitution |
| `Reading.WordRoundTrip` | external/poky/bitbake/lib/pyinotify.py:1215-1220 | a 32-bit little-endian word is decoded as it was encoded |
| `Reading.BufferRoundTrip` | external/poky/bitbake/lib/pyinotify.py:1206-1233 | decoding the records of any list of events (NUL-padded names) rebuilds exactly that list and uses up the buffer |
| `Reading.DecodeIsExact` | external/poky/bitbake/lib/pyinotify.py:1206-1233 | the read loop accepts only buffers that are the encoding of some list of whole records, and returns that list |
| `Reading.EnqueueAllIs` | external/poky/bitbake/lib/pyinotify.py:1221-1233 | a batch with coalescing on enqueues its first occurrences in order, and without it everything |
| `Reading.CoalescingIsExact` | external/poky/bitbake/lib/pyinotify.py:1221-1233 | coalescing keeps one copy of every distinct (wd, mask, cookie, name) if and only if no two different events of the batch print alike |
| `Reading.AlikeIs` | external/poky/bitbake/lib/pyinotify.py:462-481 | two different events have the same printed text exactly if they differ only in that one name is empty and the other is two quote characters |
| `Reading.CoalescingDropsADifferentEvent` | external/poky/bitbake/lib/pyinotify.py:1221-1233 | a batch the kernel can deliver that fails it: attribute changes of a child directory named by two quote characters and of the watched directory itself |
| `Agreement.AddPathsAgrees` | external/poky/bitbake/lib/pyinotify.py:1833-1913 | add_watch on any paths, recursive or not, keeps agreement between the map and the kernel |
| `Agreement.RmAgrees` | external/poky/bitbake/lib/pyinotify.py:2082-2123 | a non-recursive rm_watch keeps agreement: the map entry goes while IN_IGNORED is in flight |
| `Agreement.ReadSomeAgrees` | external/poky/bitbake/lib/pyinotify.py:1192-1233 | reading any number of events keeps agreement, coalescing on or off |
| `Agreement.IgnoredAgrees` | external/poky/bitbake/lib/pyinotify.py:798-807 | taking IN_IGNORED off the queue keeps agreement if and only if its descriptor leaves the map |
| `Agreement.StepAgrees` | external/poky/bitbake/lib/pyinotify.py:1241-1259 | a process step keeps agreement if and only if an IN_IGNORED for a watched descriptor is not lost to ignore_events |
| `Agreement.NextAgrees` | external/poky/bitbake/lib/pyinotify.py:1235-1262 | every action (tree change, kernel event, deletion, add_watch, rm_watch, read, process, end of batch, switching coalescing or ignoring) keeps agreement |
| `Agreement.RunAgrees` | external/poky/bitbake/lib/pyinotify.py:1235-1262 | over every interleaving: each map entry is live or has IN_IGNORED in flight, and each live descriptor is in the map |
| `Agreement.QuiescentTablesAreEqual` | external/poky/bitbake/lib/pyinotify.py:1780-1825 | once everything is read and drained the map's keys equal the kernel's live descriptors, and `_wmd[wd].wd == wd` throughout |
| `Agreement.IgnoredIsFinal` | external/poky/bitbake/lib/pyinotify.py:798-807 | no event of a descriptor comes after its IN_IGNORED, in what was handled or is in flight |
| `Agreement.IgnoringLosesAgreement` | external/poky/bitbake/lib/pyinotify.py:1241-1259 | a run that loses it: the watched /a is removed, ignoring is switched on, and once everything is handled the map still holds a dead descriptor |
| `PathMeaning.SplitIs` | external/poky/bitbake/lib/pyinotify.py:1802-1807 | splitting cuts at every separator and nowhere else: the pieces joined by separators are the path, and no piece has one |
| `PathMeaning.ResolveLeads` | external/poky/bitbake/lib/pyinotify.py:1802-1807 | resolving a path is going along its pieces: nothing for an empty piece or a dot, up for two dots, and down for any other, from the root or the current directory |
| `PathMeaning.JoinLeads` | external/poky/bitbake/lib/pyinotify.py:680-681 | a joined path leads to that entry of where the path leads |
| `PathMeaning.NormLeads` | external/poky/bitbake/lib/pyinotify.py:1802-1807 | a path and what normpath makes of it lead to the same place, for every path, relative or with any number of slashes and dots |
| `WatchedTrees.WalkedIs` | external/poky/bitbake/lib/pyinotify.py:2064-2080 | a path is walked if and only if it is the top or is joined to it by names of entries that lead to a directory |
| `WatchedTrees.WalkNoTwice` | external/poky/bitbake/lib/pyinotify.py:2064-2080 | no path is walked twice |
| `WatchedTrees.WalkedLeads` | external/poky/bitbake/lib/pyinotify.py:1853-1905 | each walked path, as it is and normalised, leads the kernel to the directory it was made for |
| `WatchedTrees.AddAllIs` | external/poky/bitbake/lib/pyinotify.py:1833-1913 | adding paths that are there: -2 for those the filter excludes, and each other one has a watch of its own with the mask (IN_CREATE added for auto_add), handler and filter asked for; every other watch stays |
| `WatchedTrees.RecursiveAddIs` | external/poky/bitbake/lib/pyinotify.py:1833-1913 | a recursive add_watch: exactly the directories reached from the path by names of entries, or the path itself if it is none, once each, are in the result, and they are watched as asked for or map to -2 |
| `WatchedTrees.MissingAddIs` | external/poky/bitbake/lib/pyinotify.py:1833-1913 | a path that is not there changes nothing and maps to -1, or to -2 if it is excluded |
| `WatchedTrees.MovedInTreeIsWatched` | external/poky/bitbake/lib/pyinotify.py:719-747 | a directory moved in with an unknown cookie: every directory reached from it by names of entries and not excluded is watched, with the attributes of the directory it came to, and no other watch is new |
| `Deliveries.KindsInNumbers` | external/poky/bitbake/lib/pyinotify.py:605-620 | which handler an event reaches, by the number of its mask without IN_ISDIR |
| `Deliveries.KernelEventsAreNamed` | external/poky/bitbake/lib/pyinotify.py:605-609 | no event that the kernel sends fails the dispatch |
| `Deliveries.DispatchTells` | external/poky/bitbake/lib/pyinotify.py:809-830 | an event on a known watch is delivered once, to the handler of its watch, with its descriptor, mask and name, the path of its watch, and its directory flag, cookie and source where it has them |
| `Deliveries.DrainTells` | external/poky/bitbake/lib/pyinotify.py:1235-1262 | over a whole drain, events made up on the way included: one such delivery for each turn that has something to tell, in order, and nothing else |
| `Deliveries.UnknownPlace` | external/poky/bitbake/lib/pyinotify.py:752-796 | a watch moved to where nothing is known of has `-unknown-path` at the end of its path, once, and no other watch is touched |
| `Managing.PathsAlone` | external/poky/bitbake/lib/pyinotify.py:2064-2080 | add_watch without recursion is adding each path on its own, whatever is below it |
| `Managing.MadeUpEvents` | external/poky/bitbake/lib/pyinotify.py:684-703 | the events made up for a new directory are, for each entry that is a file or a directory and not yet watched, its creation with the mask of its kind |
| `Managing.NotFollowed` | external/poky/bitbake/lib/pyinotify.py:661-747 | a new or arrived entry that is no directory, is excluded, or comes where auto_add is off, changes nothing |
| `Managing.RmIs` | external/poky/bitbake/lib/pyinotify.py:2104-2123 | removing a live descriptor takes it from kernel and map, queues its IN_IGNORED, and changes nothing else |
| `Managing.RmRefused` | external/poky/bitbake/lib/pyinotify.py:2104-2123 | any other descriptor is refused and nothing changes |
| `Managing.BatchesAreApart` | external/poky/bitbake/lib/pyinotify.py:1221-1262 | a batch is coalesced on its own: nothing read before the end of the last one counts, and without coalescing nothing is dropped |
| `Managing.CoalescingAgain` | external/poky/bitbake/lib/pyinotify.py:1141-1158 | switching coalescing off and on again makes it start afresh, switching it on twice does not, and off it drops nothing |
| `Managing.ExpiredAreDropped` | external/poky/bitbake/lib/pyinotify.py:649-659 | a move record is kept over the end of a batch if and only if it has not expired |
| `Reading.HeadInBytes` | external/poky/bitbake/lib/pyinotify.py:1206-1220 | a record byte by byte: descriptor (two's complement), mask, cookie, length, and the name without the NULs at its end |
| `Notifiers.INotify.AddWatch` | external/poky/bitbake/lib/pyinotify.py:1809-1825 | the kernel call: the descriptor already live for the inode, or the next unused one, or -1 |
| `Notifiers.INotify.RmWatch` | external/poky/bitbake/lib/pyinotify.py:2104-2112 | the kernel call: refuses exactly the descriptors that are not live |
| `Notifiers.WatchManager.AddOneWatch` | external/poky/bitbake/lib/pyinotify.py:1809-1825 | updates the map in place as the specification AddOne does |
| `Notifiers.WatchManager.AddWatch` | external/poky/bitbake/lib/pyinotify.py:1833-1913 | the loop over the walked paths equals AddAll, of which RecursiveAddIs, PathsAlone and MissingAddIs say what it watches |
| `Notifiers.WatchManager.GetWd` | external/poky/bitbake/lib/pyinotify.py:2035-2049 | returns a descriptor whose watch stores the normalised path if and only if there is one |
| `Notifiers.WatchManager.DelWatch` | external/poky/bitbake/lib/pyinotify.py:1780-1791 | removes exactly that entry |
| `Notifiers.WatchManager.RmWatch` | external/poky/bitbake/lib/pyinotify.py:2082-2123 | equals the specification of removing one descriptor |
| `Notifiers.Notifier.AppendEvent` | external/poky/bitbake/lib/pyinotify.py:1129-1136 | puts the event behind the queue and changes nothing else |
| `Notifiers.Notifier.CoalesceEvents` | external/poky/bitbake/lib/pyinotify.py:1141-1158 | switching coalescing, with the set of seen events emptied when it goes off |
| `Notifiers.Notifier.ReadEvents` | external/poky/bitbake/lib/pyinotify.py:1192-1233 | the read loop over the bytes enqueues exactly the decoded events (coalesced) |
| `Notifiers.Notifier.ProcessCreate` | external/poky/bitbake/lib/pyinotify.py:661-707 | the handler in place equals the specification Created and its delivery |
| `Notifiers.Notifier.ProcessMovedFrom` | external/poky/bitbake/lib/pyinotify.py:709-717 | records the source path under its cookie |
| `Notifiers.Notifier.ProcessMovedTo` | external/poky/bitbake/lib/pyinotify.py:719-750 | records the destination, or watches an arrived directory (MovedIn, of which MovedInTreeIsWatched says what it watches), and delivers |
| `Notifiers.Notifier.ProcessMoveSelf` | external/poky/bitbake/lib/pyinotify.py:752-796 | the loop over all watches equals re-prefixing exactly those strictly below |
| `Notifiers.Notifier.ProcessIgnored` | external/poky/bitbake/lib/pyinotify.py:798-807 | removes the watch and delivers |
| `Notifiers.Notifier.ProcessOne` | external/poky/bitbake/lib/pyinotify.py:1241-1259 | one turn of the loop equals the specification Step |
| `Notifiers.Notifier.Cleanup` | external/poky/bitbake/lib/pyinotify.py:649-659 | the expired records, and only they, are dropped |
| `Notifiers.Notifier.ProcessEvents` | external/poky/bitbake/lib/pyinotify.py:1235-1262 | the whole loop equals Drained followed by the end of the batch |
| `CallbackLists.RemoveFromIs` | external/alexa-auto-sdk/docs/android/jquery.js:16 | the in-place scan of `remove` deletes every occurrence from a position on and repairs firingIndex and firingLength by exactly the occurrences at or before them |
| `CallbackLists.AddFollows` | external/alexa-auto-sdk/docs/android/jquery.js:16 | `add` during a pass appends to the entries still to come and extends the pass to them |
| `CallbackLists.RemoveFollows` | external/alexa-auto-sdk/docs/android/jquery.js:16 | `remove` during a pass keeps the cursor between the surviving entries already run and those still to come |
| `CallbackLists.DoAllFollows` | external/alexa-auto-sdk/docs/android/jquery.js:16 | the same for any script of add, remove and nested fire calls |
| `CallbackLists.LoopFollows` | external/alexa-auto-sdk/docs/android/jquery.js:16 | the whole index-based loop of `fire` refines a list split at the cursor: firingLength equals the list length, entries up to firingIndex are the surviving ones that ran |
| `CallbackLists.SurvivesUnlessRemoved` | external/alexa-auto-sdk/docs/android/jquery.js:16 | replaying additions and removals on the numbered list, a registration is still there if and only if no removal names its function |
| `CallbackLists.LoopTakesTurns` | external/alexa-auto-sdk/docs/android/jquery.js:16 | each invocation is the first registration, of the list as all changes so far leave it, that has not had its turn, and the pass ends when there is none |
| `CallbackLists.PassRunsEveryRegistrationOnce` | external/alexa-auto-sdk/docs/android/jquery.js:16 | a firing pass of the in-place loop under any re-entrant script calls exactly such a sequence of registrations (additions included), and leaves the list that replaying all the changes leaves |
| `CallbackLists.TurnsRise` | external/alexa-auto-sdk/docs/android/jquery.js:16 | in such a sequence no registration is called twice, and calls come in order of registration |
| `CallbackLists.CalledUnlessRemoved` | external/alexa-auto-sdk/docs/android/jquery.js:16 | a registration that waits for its turn, from the start or added later, is called if and only if no callback invoked before its turn removes its function |
| `CallbackStops.PassEndsAtStop` | external/alexa-auto-sdk/docs/android/jquery.js:16 | any pass: the calls made are those of the pass in which nothing ends it early, up to and including the first by which a callback returns `false` (with stopOnFalse), disables the list, or locks one without memory |
| `CallbackObjects.LoopKeeps` | external/alexa-auto-sdk/docs/android/jquery.js:16 | the cursor stays at or just before an entry through any pass, also with stopOnFalse, lock and disable |
| `CallbackObjects.FireAllRests` | external/alexa-auto-sdk/docs/android/jquery.js:16 | after a pass and all the passes postponed during it the list rests: not firing, nothing postponed |
| `CallbackObjects.PostponedCallsGetTheirPass` | external/alexa-auto-sdk/docs/android/jquery.js:16 | every call postponed while firing, before or by any callback, gets exactly one pass, with its own arguments, in the order of postponing, unless the list is locked or disabled |
| `CallbackObjects.Callbacks.Has` | external/alexa-auto-sdk/docs/android/jquery.js:16 | finds a function if and only if it is listed |
| `CallbackObjects.Callbacks.PushArgs` | external/alexa-auto-sdk/docs/android/jquery.js:16 | the recursion over nested argument arrays equals pushing the flattened functions, unique or not |
| `CallbackObjects.Callbacks.RemoveOne` | external/alexa-auto-sdk/docs/android/jquery.js:16 | the loop with `splice(i--, 1)` equals removing from the front on, stopping after the first in a unique list |
| `CallbackObjects.Callbacks.Perform` | external/alexa-auto-sdk/docs/android/jquery.js:16 | one re-entrant call from inside a callback has the specified effect |
| `CallbackObjects.Callbacks.RunLoop` | external/alexa-auto-sdk/docs/android/jquery.js:16 | the `for` loop of a pass, with user code between its turns, equals the specification Loop |
| `CallbackObjects.Callbacks.RunPass` | external/alexa-auto-sdk/docs/android/jquery.js:16 | a pass and what it leaves (once, memory, stopOnFalse, postponed passes) equals the specification |
| `CallbackObjects.Callbacks.FireWith` | external/alexa-auto-sdk/docs/android/jquery.js:16 | fires now, postpones while firing, or does nothing when locked or already fired once |
| `CallbackObjects.Callbacks.Add` | external/alexa-auto-sdk/docs/android/jquery.js:16 | adds, and fires the new entries at once when memory holds a call |
| `CallbackObjects.Callbacks.Disable` | external/alexa-auto-sdk/docs/android/jquery.js:16 | drops list, postponed calls and memory |
| `CallbackObjects.Callbacks.Lock` | external/alexa-auto-sdk/docs/android/jquery.js:16 | drops the postponed calls, and disables a list that never fired |
| `CallbackFlags.FiringIs` | external/alexa-auto-sdk/docs/android/jquery.js:16 | firing a list calls what is listed, in order, up to the first that stops it, and leaves memory, list and stack as its flags say, for every mix of flags |
| `CallbackFlags.OnceFiresOnce` | external/alexa-auto-sdk/docs/android/jquery.js:16 | a list with `once` that has fired does not fire again |
| `CallbackFlags.AddingLater` | external/alexa-auto-sdk/docs/android/jquery.js:16 | what is added after a firing is called at once with the remembered call, and nothing else is called again; after a pass that was stopped, or without `memory`, nothing is called |
| `CallbackFlags.DisabledForGood` | external/alexa-auto-sdk/docs/android/jquery.js:16 | a disabled list stays as it is under every sequence of operations |
| `CallbackFlags.LockedIs` | external/alexa-auto-sdk/docs/android/jquery.js:16 | a locked list is not fired from outside, goes on answering additions if it holds a call, and is disabled otherwise |
| `CallbackFlags.FlattenIs` | external/alexa-auto-sdk/docs/android/jquery.js:16 | arguments are taken in order, a function as it is, an array as what is in it, anything else as nothing |
| `Deferreds.NextMoves` | external/alexa-auto-sdk/docs/android/jquery.js:16 | every step of user code keeps the invariant and moves the decision only from pending to settled |
| `Deferreds.LateRegistrationRuns` | external/alexa-auto-sdk/docs/android/jquery.js:16 | a registration after settlement is called with the settling arguments |
| `Deferreds.NestedRegistrationJoins` | external/alexa-auto-sdk/docs/android/jquery.js:16 | a registration during the settling pass joins that pass |
| `Deferreds.WinnerReturns` | external/alexa-auto-sdk/docs/android/jquery.js:16 | returning from a callback gives the next registration its turn |
| `Deferreds.LateFiringIsInert` | external/alexa-auto-sdk/docs/android/jquery.js:16 | resolving or rejecting a settled deferred changes nothing |
| `Deferreds.RunKeeps` | external/alexa-auto-sdk/docs/android/jquery.js:16 | the invariant holds after any re-entrant sequence of steps |
| `Deferreds.DeferredIsOneShot` | external/alexa-auto-sdk/docs/android/jquery.js:16 | for any re-entrant mix of resolve, reject, notify and registrations: the first firing decides, the losing family never runs, the winning one runs each registration once, in order, with the settling arguments, and all of them once no pass is under way |
| `Deferreds.DecisionIsFinal` | external/alexa-auto-sdk/docs/android/jquery.js:16 | once decided the state never changes, and every progress callback is told something that was notified while notifying counted |
| `DeferredProgress.NextRemembers` | external/alexa-auto-sdk/docs/android/jquery.js:16 | no step forgets a notification that is owed to a callback, but for what is postponed when the list is locked |
| `DeferredProgress.LastIsRemembered` | external/alexa-auto-sdk/docs/android/jquery.js:16 | a notification accepted outside a pass is the one that is remembered |
| `DeferredProgress.LateProgressIsTold` | external/alexa-auto-sdk/docs/android/jquery.js:16 | progress callbacks registered after a notification: the first is called at once with the remembered one, the pass goes on over the new ones only, and none that was registered before is called |
| `DeferredProgress.NotifiedAreTold` | external/alexa-auto-sdk/docs/android/jquery.js:16 | an accepted notification reaches every progress callback listed then: for certain if no progress callback was running, and otherwise unless the deferred is settled before those running are through |
| `Barriers.ZeroIsFinal` | external/alexa-auto-sdk/docs/android/jquery.js:16 | the counter is zero only when every argument was attended to and every promise heard to resolve, and then it moves no more |
| `Barriers.NextKeeps` | external/alexa-auto-sdk/docs/android/jquery.js:16 | every turn of the loop, settlement and callback keeps the counter equal to the number of arguments still holding it up |
| `Barriers.OutcomeIsRight` | external/alexa-auto-sdk/docs/android/jquery.js:16 | for any mix of values and promises and any settlement order the master resolves only when all have, each value at its own index, and rejects only with the first rejection heard; the value is the argument itself, or undefined, the one value, or the array, by how many the promise resolved with |
| `Barriers.OutcomeIsReached` | external/alexa-auto-sdk/docs/android/jquery.js:16 | when the loop is over and no callback is due, the master is rejected if some promise is, pending if some promise is, and resolved otherwise |
| `Barriers.OutcomeIsFinal` | external/alexa-auto-sdk/docs/android/jquery.js:16 | the master settles at most once |
| `WhenDeferreds.CallIsSeen` | external/alexa-auto-sdk/docs/android/jquery.js:16 | a call that a deferred makes of a callback of `when` comes once, after settling, and moves the barrier as hearing that settlement does |
| `WhenDeferreds.WhenIsRight` | external/alexa-auto-sdk/docs/android/jquery.js:16 | `when` over any deferreds on which anybody acts at any time: it resolves only once each of them has, with nothing, the one value or the array of what each was resolved with at its own place, and rejects only with what one was rejected with |
| `WhenDeferreds.WhenIsReached` | external/alexa-auto-sdk/docs/android/jquery.js:16 | once its loop is over and no callback is running it is rejected if and only if some deferred is, and resolved if and only if all are |
| `Barriers.When.Attend` | external/alexa-auto-sdk/docs/android/jquery.js:16 | one turn of the loop updates counter and index in place as specified |
| `Barriers.When.Fill` | external/alexa-auto-sdk/docs/android/jquery.js:16 | the resolve callback writes its index of the array, counts down and resolves at zero |
| `Barriers.When.RejectWith` | external/alexa-auto-sdk/docs/android/jquery.js:16 | the reject callback settles the master only if it is pending |
| `Barriers.When.Collect` | external/alexa-auto-sdk/docs/android/jquery.js:16 | the whole loop over promises settled beforehand or not ends with the right outcome |
| `ExpressionReading.PIs` | external/poky/bitbake/lib/codegen.py:361-484 | printing is compositional: the text of a tree in front of any text (accumulator form) is Print followed by it |
| `ExpressionReading.ReadsExpr` | external/poky/bitbake/lib/codegen.py:361-484 | reading a printed expression in front of any text that cannot continue a name stops exactly at that text |
| `ExpressionReading.ReadsIndex` | external/poky/bitbake/lib/codegen.py:467-482 | subscripts and slices are read back, the step `None` printed as nothing included |
| `ExpressionReading.ReadsArguments` | external/poky/bitbake/lib/codegen.py:365-390 | positional, keyword, `*` and `**` arguments are read back in their places |
| `ExpressionReading.ReadsTuple` | external/poky/bitbake/lib/codegen.py:404-411 | tuples of none, one (trailing comma) and several elements are told apart from each other and from parentheses |
| `ExpressionReading.ReadPrint` | external/poky/bitbake/lib/codegen.py:361-484 | parse(print(e)) is the normal form of e for every tree with valid names |
| `ExpressionReading.RoundTrip` | external/poky/bitbake/lib/codegen.py:361-484 | parse(print(e)) == e if and only if every and/or has at least two operands and no set is empty |
| `ExpressionReading.PrintIsInjective` | external/poky/bitbake/lib/codegen.py:361-484 | on those trees two have the same text only if they are equal |
| `ExpressionReading.DegenerateTrees` | external/poky/bitbake/lib/codegen.py:413-448 | trees that do not come back: an empty set, and an `or` of no or one operand |
| `Headers.SignatureIs` | external/poky/bitbake/lib/codegen.py:122-142 | the parameters of a def (defaults aligned to the right, vararg, kwarg) are recovered from its argument text; defaults beyond the parameters are lost |
| `Headers.DefIs` | external/poky/bitbake/lib/codegen.py:185-192 | a def header is read back |
| `Headers.ClassIs` | external/poky/bitbake/lib/codegen.py:194-226 | a class header is read back, with and without bases |
| `Headers.ForIs` | external/poky/bitbake/lib/codegen.py:249-256 | a for header is read back |
| `Headers.WithIs` | external/poky/bitbake/lib/codegen.py:265-273 | a with header is read back, with and without `as` |
| `Headers.PrintOneLine` | external/poky/bitbake/lib/codegen.py:361-484 | an expression never contains a newline |
| `Layout.LIs` | external/poky/bitbake/lib/codegen.py:185-273 | the lines of a statement in front of others, row by row |
| `Layout.LayoutIsRead` | external/poky/bitbake/lib/codegen.py:94-118 | splitting the text gives exactly the (depth, text) rows: each non-blank line starts with its depth in indents, blank lines carry nothing |
| `Layout.ReadsElse` | external/poky/bitbake/lib/codegen.py:228-247 | an elif chain reads back as nested ifs, ended by a non-empty else |
| `Layout.ReadsStmt` | external/poky/bitbake/lib/codegen.py:185-273 | the rows of any statement read back as its normal form if no block in it is empty, and cannot be read otherwise |
| `Layout.SourceIsRead` | external/poky/bitbake/lib/codegen.py:58-78 | the text of a module reads as its statements, or as nothing exactly if some written block is empty |
| `Layout.SourceRoundTrip` | external/poky/bitbake/lib/codegen.py:58-78 | reading gives back the module if and only if no written block is empty and every part is in normal form |
| `Layout.RowsDetermineStatements` | external/poky/bitbake/lib/codegen.py:185-273 | the (depth, text) lines determine the statements: two modules with the same lines have the same normal form, with `if`s with and without `else` |
| `Layout.SourceDeterminesStatements` | external/poky/bitbake/lib/codegen.py:58-78 | the text likewise; modules in normal form are equal if and only if their texts are |
| `Gaps.GapsAre` | external/poky/bitbake/lib/codegen.py:102-106 | the newlines before a statement: three before a class, two before a def, one before any other, and then the text it has at the top |
| `Gaps.StatementFollows` | external/poky/bitbake/lib/codegen.py:185-226 | a statement put behind others in a module adds that many newlines and its own text |
| `Gaps.DecoratorsFollow` | external/poky/bitbake/lib/codegen.py:144-148 | a decorator comes directly above what it decorates, and the gap above the first |
| `Layout.IfWithoutElse` | external/poky/bitbake/lib/codegen.py:228-247 | an if without else is printed with a dangling `else:`, which cannot be read |
| `SourceGenerators.SourceGenerator.Write` | external/poky/bitbake/lib/codegen.py:94-100 | pending newlines and indentation are written before the text, newlines only if something was written |
| `SourceGenerators.SourceGenerator.Newline` | external/poky/bitbake/lib/codegen.py:102-106 | pending newlines become the maximum |
| `SourceGenerators.SourceGenerator.Visit` | external/poky/bitbake/lib/codegen.py:361-484 | visiting an expression appends exactly its text |
| `SourceGenerators.SourceGenerator.VisitSignature` | external/poky/bitbake/lib/codegen.py:122-142 | the zip of parameters with padded defaults writes the argument text |
| `SourceGenerators.SourceGenerator.Decorators` | external/poky/bitbake/lib/codegen.py:144-148 | one line per decorator, the pending gap before the first only |
| `SourceGenerators.SourceGenerator.Body` | external/poky/bitbake/lib/codegen.py:108-113 | the statements one level deeper, the indentation restored |
| `SourceGenerators.SourceGenerator.VisitIf` | external/poky/bitbake/lib/codegen.py:228-247 | the loop over the else chain writes the lines of the whole chain |
| `SourceGenerators.SourceGenerator.ClassLine` | external/poky/bitbake/lib/codegen.py:194-225 | decorators and class header, parentheses only around something |
| `SourceGenerators.SourceGenerator.VisitStmt` | external/poky/bitbake/lib/codegen.py:185-273 | visiting a statement appends exactly its lines and restores the indentation |
| `SourceGenerators.ToSource` | external/poky/bitbake/lib/codegen.py:58-78 | the result is the rendered text of the module's lines |
| `RelocationProofs.SubIsFree` | external/poky/scripts/relocate_sdk.py:30 | substituting leaves no marker, even across the seams of replaced pieces |
| `RelocationProofs.SubReplaces` | external/poky/scripts/relocate_sdk.py:30 | the first marker is replaced by the prefix, the text before it stays, and the rest is substituted on its own |
| `RelocationProofs.SubTwice` | external/poky/scripts/relocate_sdk.py:30 | substituting twice is substituting once |
| `RelocationProofs.NewPathTwice` | external/poky/scripts/relocate_sdk.py:149-156 | substitute, strip and pad is stable when repeated |
| `RelocationProofs.SlotsAre` | external/poky/scripts/relocate_sdk.py:160-176 | each whole 4096-byte slot is rewritten from its own content alone, and only whole slots are touched |
| `RelocationRuns.ListRewritten` | external/poky/scripts/relocate_sdk.py:126-176 | over all sections each one ends as rewritten from its content when the run began |
| `RelocationRuns.ListReads` | external/poky/scripts/relocate_sdk.py:126-176 | what lies apart from all sections is not changed, whatever the outcome |
| `RelocationRuns.SplitIs` | external/poky/scripts/relocate_sdk.py:178-184 | splitting terminated paths gives them back |
| `RelocationRuns.NewPathsAgain` | external/poky/scripts/relocate_sdk.py:178-187 | the new table reads as the new paths and is not changed again |
| `RelocationRuns.LengthsAre` | external/poky/scripts/relocate_sdk.py:189-192 | entry i of the table of lengths decodes to the length of path i, and there are as many entries as paths |
| `RelocationRuns.SubAllIs` | external/poky/scripts/relocate_sdk.py:186 | each new path is the substituted old one |
| `RelocationRuns.DirsAre` | external/poky/scripts/relocate_sdk.py:177-201 | after writing, the directory section holds the padded new paths and the length section their lengths; everything apart from both is unchanged |
| `RelocationRuns.ListOutcome` | external/poky/scripts/relocate_sdk.py:147-176 | the loop over the sections exits if and only if some path does not fit its slot or section |
| `RelocationWhole.ListIsRun` | external/poky/scripts/relocate_sdk.py:126-131 | headers and names read while the file changes are those of the original file |
| `RelocationWhole.InterpreterAgain` | external/poky/scripts/relocate_sdk.py:84-104 | an interpreter once changed, or left alone, is left alone |
| `Bytes.LittleEndian` | external/poky/scripts/relocate_sdk.py:49-63 | fields of two, four and eight bytes, the least significant first |
| `RelocationProofs.FileHeaderFields` | external/poky/scripts/relocate_sdk.py:45-63 | each field used is the one of its name in the packed 32- or 64-bit record |
| `RelocationProofs.ProgramFields` | external/poky/scripts/relocate_sdk.py:66-82 | type, offset and file size of a program header sit where the packed record of the ABI has them |
| `RelocationProofs.SectionFields` | external/poky/scripts/relocate_sdk.py:107-133 | name, type, offset and size of a section header likewise, and the short form read for the name table agrees with it |
| `RelocationWhole.InterpreterIsRight` | external/poky/scripts/relocate_sdk.py:84-104 | after a run an interpreter that is not the host's own and has room is the new path with NULs behind it |
| `RelocationWhole.OutcomeIs` | external/poky/scripts/relocate_sdk.py:65-201 | on a well-laid file: exit if and only if some path does not fit, otherwise crash if and only if a table of directories has none of lengths or lengths that cannot be packed, otherwise a normal end |
| `RelocationSpill.TablesSpill` | external/poky/scripts/relocate_sdk.py:195-199 | a run leaves every byte of no section and not of the interpreter if and only if the tables end within the file and what they write outside their sections is what is there already |
| `RelocationSpill.FittingTablesAreHarmless` | external/poky/scripts/relocate_sdk.py:195-199 | which is so when the new tables fit their sections |
| `RelocationSample.LongPathSpills` | external/poky/scripts/relocate_sdk.py:195-199 | a 32-bit ELF file of 250 bytes and a prefix with which the table of directories is written over a byte behind its section |
| `RelocationSample.NoLengthsCrash` | external/poky/scripts/relocate_sdk.py:123-177 | that file with no table of lengths: every run ends in the unbound name |
| `RelocationFile.FileOutcomeIs` | external/poky/scripts/relocate_sdk.py:33-43 | one file of the list, of whatever class: left alone if it is small or no ELF file of a known class; otherwise an exit if a path does not fit or a table runs past the end of the file, a crash if a table of lengths is missing or cannot be packed, and else a normal end |
| `RelocationFile.ProcessTwice` | external/poky/scripts/relocate_sdk.py:229-255 | if everything fits, the script run again on its own result ends normally and changes no byte, whatever the class |
| `RelocationSpill.SizeKept` | external/poky/scripts/relocate_sdk.py:253-255 | the size of the file stays if and only if the tables end within it |
| `RelocationWhole.FrameOfRelocation` | external/poky/scripts/relocate_sdk.py:65-201 | when the tables fit, for any outcome the size stays and every stretch apart from interpreter and named sections keeps its bytes |
| `RelocationWhole.RelocationIsRight` | external/poky/scripts/relocate_sdk.py:65-201 | a run on a file where every path fits and the tables are there ends normally; by name, `.ldsocache` is rewritten as one path and `.gccrelocprefix` slot by slot from what they held, the last `.sysdirs` and `.sysdirslen` become tables that agree, any other section keeps its bytes, and so do all headers |
| `RelocationWhole.RelocateTwice` | external/poky/scripts/relocate_sdk.py:218-250 | under the same condition on the file both runs end normally, and the second leaves the file byte for byte unchanged |
| `RelocationNames.MarkIsReplaced` | external/poky/scripts/relocate_sdk.py:30 | at the 23 characters of the text `##DEFAULT_INSTALL_DIR##` substituting puts the prefix and goes on behind them |
| `RelocationNames.NoMarkStays` | external/poky/scripts/relocate_sdk.py:30 | after substituting that text is nowhere |
| `RelocationNames.FirstOfType3` | external/poky/scripts/relocate_sdk.py:66-83 | the interpreter is the first program header of type 3 |
| `RelocationNames.InterpreterByText` | external/poky/scripts/relocate_sdk.py:84-104 | after a run the interpreter is the new one with NULs behind it, unless there is no room for it or it is below /lib/, /lib64/, /lib32/, /usr/lib32/ or /usr/lib64/, and then it is what it was |
| `RelocationNames.EverySection` | external/poky/scripts/relocate_sdk.py:126-147 | the sections are those of all headers that the file announces, in order |
| `RelocationNames.SectionsByName` | external/poky/scripts/relocate_sdk.py:147-176 | a PROGBITS section `.ldsocache` ends as its one path, and `.gccrelocprefix` as the path of each slot of 4096 bytes, with the text replaced, the NULs stripped and put back up to the size; what is behind the last whole slot stays |
| `RelocationNames.NameIs` | external/poky/scripts/relocate_sdk.py:133 | a section name ends before the first NUL |
| `RelocationNames.NameCutShort` | external/poky/scripts/relocate_sdk.py:133 | a name without a NUL behind it loses the last byte of the table |
| `RelocationNames.DirectoriesAre` | external/poky/scripts/relocate_sdk.py:178-187 | the new directories are those before the first empty one, whatever is behind it, each with the text replaced |
| `RelocationNames.DirectoriesToTheEnd` | external/poky/scripts/relocate_sdk.py:178-187 | without an empty one they are all there are, the last with or without its NUL |
| `ElfFiles.ElfFile.Write` | external/poky/scripts/relocate_sdk.py:103 | writes over, or extends with zeros in between, and advances |
| `ElfFiles.ElfFile.ParseElfHeader` | external/poky/scripts/relocate_sdk.py:45-63 | the fields of the 32- and 64-bit headers |
| `ElfFiles.ElfFile.ChangeInterpreter` | external/poky/scripts/relocate_sdk.py:65-104 | the loop with its breaks equals the specification |
| `ElfFiles.ElfFile.ChangeSlots` | external/poky/scripts/relocate_sdk.py:160-176 | the offset loop equals the specification, position and offset in step |
| `ElfFiles.ElfFile.ChangeDlSysdirs` | external/poky/scripts/relocate_sdk.py:106-201 | the header loop and the tables equal the specification |
| `ElfFiles.BuildTables` | external/poky/scripts/relocate_sdk.py:178-192 | both accumulators of the loop over the paths |
| `ElfFiles.Substitute` | external/poky/scripts/relocate_sdk.py:30 | a scan from the left computes the leftmost non-overlapping substitution |
| `ElfFiles.ElfFile.GetArch` | external/poky/scripts/relocate_sdk.py:33-43 | the class of the file, from its first and fifth byte |
| `ElfFiles.RelocateFile` | external/poky/scripts/relocate_sdk.py:229-255 | one file: size, class, header, interpreter, sections, and the check that the size stayed |
| `Vehicles.DriveThreadStops` | meta-agl-demo/recipes-config/cluster-demo-simulator/files/simple_can_simulator.py:103-158 | over all interleavings at single reads and writes, while cruise control stays active the drive thread writes exactly once more if it was just about to and gets a turn, and never otherwise |
| `Vehicles.LegIsDriven` | meta-agl-demo/recipes-config/cluster-demo-simulator/files/simple_can_simulator.py:103-123 | uninterrupted, a leg of the drive thread ends exactly at its target speed and rpm after duration times frequency steps |
| `Vehicles.RoundIsDriven` | meta-agl-demo/recipes-config/cluster-demo-simulator/files/simple_can_simulator.py:146-158 | a whole round without cruise control drives all seven legs and parks the vehicle again |
| `Vehicles.WheelStaysInStep` | meta-agl-demo/recipes-config/cluster-demo-simulator/files/simple_can_simulator.py:220-295 | however turns of the drive thread and messages alternate, exactly one flag is set if a button is pressed and none otherwise, and the handler's copies equal the simulator's |
| `Vehicles.MessagesAreClicks` | meta-agl-demo/recipes-config/cluster-demo-simulator/files/simple_can_simulator.py:220-295 | any mix of turns of the drive thread and messages leaves thread and vehicle as the clicks between those turns do: the first button pressed counts, until the release, and nothing after a message that is too short |
| `Vehicles.ActiveWithoutMode` | meta-agl-demo/recipes-config/cluster-demo-simulator/files/simple_can_simulator.py:267-294 | cruise control is active while switched off after exactly these clicks: nothing asks for the mode |
| `VehicleNumbers.RoundInNumbers` | meta-agl-demo/recipes-config/cluster-demo-simulator/files/simple_can_simulator.py:146-158 | from a stand, the speeds and rpm at the ends of the seven legs and the turns at which they are reached |
| `VehicleNumbers.LegIsAbandoned` | meta-agl-demo/recipes-config/cluster-demo-simulator/files/simple_can_simulator.py:103-158 | a leg that cruise control interrupts is given up, and with the cruise control off again the next one is driven as planned |
| `VehicleNumbers.ClickHappens` | meta-agl-demo/recipes-config/cluster-demo-simulator/files/simple_can_simulator.py:220-295 | a button message and its release, with nothing pressed before, do to the vehicle what the click of that button does |
| `VehicleNumbers.EnableAndCancel` | meta-agl-demo/recipes-config/cluster-demo-simulator/files/simple_can_simulator.py:241-266 | in numbers: 0x80 switches the mode, and off forgets everything; 0x08 goes passive and remembers whole speed and rpm |
| `VehicleNumbers.SetDownInNumbers` | meta-agl-demo/recipes-config/cluster-demo-simulator/files/simple_can_simulator.py:267-281 | 0x10 remembers whole speed and rpm and goes active, or takes 5 off the speed and a tenth off the rpm |
| `VehicleNumbers.ResumeUpInNumbers` | meta-agl-demo/recipes-config/cluster-demo-simulator/files/simple_can_simulator.py:282-294 | 0x40 adds 5 to the speed and a tenth to the rpm, or resumes what is remembered |
| `VehicleNumbers.CancelAndResume` | meta-agl-demo/recipes-config/cluster-demo-simulator/files/simple_can_simulator.py:220-295 | cancelling and resuming goes on at the speed of cancelling, cut to a whole number |
| `VehicleRamps.RampAlone` | meta-agl-demo/recipes-config/cluster-demo-simulator/files/simple_can_simulator.py:103-144 | a ramp of the handler, at single reads and writes, does on its own what a click does in one step |
| `VehicleRamps.OneIntrusion` | meta-agl-demo/recipes-config/cluster-demo-simulator/files/simple_can_simulator.py:103-158 | over all interleavings of that ramp with the drive thread, the drive thread gets in between at most once, with the one write it was about to do, and the ramp goes on as if alone before and behind it |
| `VehicleRamps.IntrudedRampArrives` | meta-agl-demo/recipes-config/cluster-demo-simulator/files/simple_can_simulator.py:103-144 | a ramp so interrupted still arrives at its target, less than a step behind it |
| `VehicleObjects.VehicleSimulator.Accelerate` | meta-agl-demo/recipes-config/cluster-demo-simulator/files/simple_can_simulator.py:103-112 | uninterrupted, the loop ends exactly at the target speed and rpm, after duration times frequency steps |
| `VehicleObjects.VehicleSimulator.Brake` | meta-agl-demo/recipes-config/cluster-demo-simulator/files/simple_can_simulator.py:114-123 | the same downwards |
| `VehicleObjects.VehicleSimulator.Resume` | meta-agl-demo/recipes-config/cluster-demo-simulator/files/simple_can_simulator.py:137-144 | accelerates or brakes to the remembered speed |
| `VehicleObjects.SteeringWheelMessageHandler.Receive` | meta-agl-demo/recipes-config/cluster-demo-simulator/files/simple_can_simulator.py:220-295 | one message updates both objects as specified, a short one ends the handler |
| `Dependencies.Finder.ListNew` | external/meta-updater/scripts/find_dependencies.py:146-153 | lists each unseen dependency once, in order; fails if and only if one has no recipe, and then the first such one is the last listed |
| `Dependencies.Finder.Find` | external/meta-updater/scripts/find_dependencies.py:119-160 | succeeds if and only if everything reachable has a recipe; then the list grew by reachable recipes only, holds all of them, and the file grew by the tree unfolding |
| `Dependencies.FindAll` | external/meta-updater/scripts/find_dependencies.py:199-201 | from empty: the packages are duplicate-free and equal to the recipes reachable from the root in one or more steps, without the root; the dictionary has these and the root, each with its dependencies; the file is the tree |
| `Dependencies.FilteredIs` | external/meta-updater/scripts/find_dependencies.py:122-125 | what is followed of a list of dependencies is what is not assumed provided, as often as it is there |
| `Dependencies.FilteredAppend` | external/meta-updater/scripts/find_dependencies.py:122-125 | ... and in the same order |
| `Dependencies.DependsOfIs` | external/meta-updater/scripts/find_dependencies.py:122-125 | a dependency is followed if and only if the recipe lists it and it is not assumed provided |
| `Dependencies.Finder.NotProvided` | external/meta-updater/scripts/find_dependencies.py:122-125 | the loop that leaves out what is assumed provided |
| `Manifests.ReadsTree` | external/meta-updater/scripts/find_dependencies.py:134-160 | the lines of a recipe in the file, in front of any others, read as a tree in which every recipe has below it exactly those it depends on, in order |
| `Manifests.FileIsRead` | external/meta-updater/scripts/find_dependencies.py:119-160 | the whole file reads as those trees for what the recipe at the top depends on, with nothing left over |
| `Dependencies.NoWayBack` | external/meta-updater/scripts/find_dependencies.py:119-160 | on a ranked graph no recipe reaches itself |
| `RecipeNames.SplitNevIsPreferred` | external/poky/scripts/lib/buildstats.py:216-231 | the name, epoch and version taken are the match of the first regular expression with the longest name and, of these, with an epoch if one has it; of the second expression if the first has no match; and it fails if and only if neither has one |
| `RecipeNames.PreferredIsUnique` | external/poky/scripts/lib/buildstats.py:216-231 | there is at most one such match |
| `RecipeNames.SplitNevIs` | external/poky/scripts/lib/buildstats.py:216-231 | a name and a version: they come back if the version starts with a digit or no digit follows a dash in the name, and otherwise the name is cut short |
| `RecipeNames.WrongSplit` | external/poky/scripts/lib/buildstats.py:216-231 | a recipe that does not come back: name a-1b, version git |
| `RecipeNames.NevrRoundTrip` | external/poky/scripts/lib/buildstats.py:146-231 | split_nevr(nevr(...)) returns the same parts if and only if the version starts with a digit and has an epoch or does not look like one, or does not and has no epoch and no digit follows a dash in the name |

## Left out
- pyinotify: system calls, polling, threads, the asynchronous notifiers, log messages, coloured output, globbing; the exclude filter is an arbitrary predicate on paths, and a handler an opaque number.
- pyinotify: names are strings of bytes, and words are little-endian; decoding of file names is not modelled.
- pyinotify: the one-minute expiry of move records is a parameter (the sets of cookies and paths that expired), so its clock is not modelled.
- pyinotify: `rm_watch(rec=True)` and `update_watch`; symbolic links; watch paths relative to a directory other than the fixed current one.
- pyinotify: hard links, since an inode has one place in `RenameTracking.Links`; how one rename changes the kernel's tree is stated through these links, and `Mirrors` relates them to the tree.
- RunIsTracked: renames are between watched directories, to free targets not below their source, and no record expires in between.
- NewDirectoryIsWatched: the tree stays as it is while the queue is drained, and the kernel never refuses a watch, because otherwise there is no fixed set of entries to announce.
- jQuery: everything but `Callbacks`, `Deferred` and `when`; `Callbacks.empty`, which leaves `firingLength` stale during a pass.
- jQuery: `Callbacks` pass contexts and arguments as one opaque value, and the truth value that a callback returns comes from the script.
- PassRunsEveryRegistrationOnce: scripts with `disable`, `lock` or a stopping `false` are outside this theorem, because they are meant to end the pass early; PassEndsAtStop is about them.
- Deferreds: modelled as steps on values, because user code runs in the middle of a call; the lists it is wired from are the in-place ones of `CallbackObjects`. `then`, `pipe`, `always` and `promise` are not modelled.
- Barriers: the progress values of `when`; `when` of a single promise, which returns that promise and runs no loop.
- codegen: string, bytes and number literals, binary operators, comparisons, conditional expressions, lambdas, `yield`, comprehensions and `ExtSlice`; assignments and other one-line statements are opaque texts; `try`, and line-number comments.
- codegen: a dictionary is a list of pairs; the zip of key and value lists of different lengths is not modelled.
- relocate_sdk: opening files, permissions, messages; Python 2, in which `get_arch` also takes a file that has only the text of the magic number right; a prefix with a backslash, which the substitution would read as an escape.
- CAN simulator: sockets, sleeping, rounding of floating-point numbers (speeds are reals), the diagnostic and status messages.
- CAN simulator: in the runs of MessagesAreClicks handling a message is one step; the steps of the drive thread that fall into a ramp of the handler are the subject of OneIntrusion.
- VehicleSimulator.Accelerate: stated without interference; the other thread's last step is the subject of DriveThreadStops.
- find_dependencies: fetching recipes, the details printed of each package, progress messages; a cyclic graph, on which the recursion does not end.
- buildstats: tasks, aggregation and differences; `$` also matching before a final newline, and blanks outside ASCII.
