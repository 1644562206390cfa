# A model of docker-squash layers and of the docker code under it

This project models, in Dafny, the parts of the repository whose correctness is not visible from one
function body: folding a stack of image layers into one, the layer format it shares with docker's tree
diff, and the stateful pieces of docker it is built on. `dafny verify dfyconfig.toml` checks all of it.

A layer is a sequence of tar headers. Its reference meaning is what `ApplyLayer` does to a file tree, a map
from clean paths to what lstat shows with the bytes or link target. `Layer.Apply` collects headers in one
map by key, and a collected map has a meaning over a base tree: `Meaning.Represents`. One simulation lemma
(`Meaning.StepSimulates`) connects the two, and it is used three times: for the stack of layers, for the
one layer saved for them, and for the layer exported from a diff of two trees.

| modules | subject |
|---|---|
| `Names`, `Sorting`, `Wrappers` | slash-separated names and the operations of `path` on them, byte-wise order, small shared types |
| `FileTree` | trees, `ApplyLayer` as a class over a tree and as its reference function |
| `Collect`, `Layers` | what a squashed layer collects, and the `Layer` object that does so |
| `Meaning`, `Squash`, `SquashExamples` | the meaning of collected entries, the squashing theorem, and why each condition is there |
| `FileInfos`, `Changes`, `RoundTrip` | trees of FileInfo objects, their exact difference, and diff and apply undoing each other |
| `Graphs` | ancestry, id prefixes and `Rebase` |
| `DeviceLocks` | the lock protocol of a DeviceSet under any interleaving |
| `DeviceState`, `DeviceSets`, `DeviceRuns` | its operations over a kernel one at a time, and what every run of them keeps |
| `StdCopying`, `BufReaders` | the stdout/stderr stream and the buffered reader |
| `EnvValues`, `ShellQuote`, `Flags`, `AufsMigrate` | environment override, shell quoting, flag parsing, the aufs migration and mount counts |

Code that changes things in place is modelled by classes and by methods with loops, each proved against a
specification function; what the code is for is proved about those functions. Kernel and file system
answers are parameters of the operations, and every map is met in an arbitrary order.

## Squashing: when one layer means the stack

`Squash.SquashPreservesMeaning` needs six conditions. Of every layer:

- (L) `Listing`: clean names, each after the directory it is in;
- (S) `Settled`: at its end, the path of every directory entry leads somewhere, links followed, and what it leads to
  in the tree shows the times of the last entry that does (so when every directory listed is still listed);

and of every entry, when it is collected:

- (W) `WhiteoutOk`: a whiteout that hits a collected entry names a path the base does not have;
- (F) a non-directory does not land above collected additions (`FileOk`) or collected whiteouts (`FileAlone`);
- (D) `DirOk`: a directory does not land where the collected entries take away a non-empty directory of the base;
- (C) `CapOk`: a directory entry without a capability does not land where the collected directory, or the
  directory of the base that was taken away, has one that would be lost or come back.

Each can be read off the collected map, the base and the entries. `Squash.StepExact` shows that (W), (D), (C) and
`FileOk` are exact entry by entry: collecting an entry has the meaning of applying it if and only if it meets them.
`Squash.LayerExact` shows the same of (S) for a layer. `FileAlone` is not exact for one entry: a file over a
directory beneath which only whiteouts are collected still means the same, but the whiteouts outlive the file.
Where a link leads is a parameter (`FileTree.World`): targets may be absolute or climb out of the tree, so it depends
on the machine. The theorems hold for all of them.

For each condition, and for each half of (F), `SquashExamples` has a family of stacks that breaks it and meets the
five others, and over which the saved layer and the stack disagree.

## Where the code and its documentation differ

The model follows the code:

- `Rebase` does not fold the image's own layer: its loop stops before index 0 (graph.go:150).
  `Graphs.RebaseMeaning` says what the result then is.
- The test for an ambiguous id prefix (graph.go:101) can never fire, so one of the matching ids is taken.
- Whiteouts and replaced directories are not kept in all cases the format needs; hence (W), (F) and (D).
- Applying a layer cannot take a capability off a directory that stays, so a diff followed by apply is exact
  if and only if no such directory loses one (`RoundTrip.DiffApplyRoundTrip`).
- The last pass of `ApplyLayer` sets the times of a listed directory through a link that has replaced it, although
  links are otherwise treated as themselves (`SquashExamples.DanglingLink`).
- A lost metadata record is ignored when a set first loads it after a crash, but is known again once other operations
  have committed up to its transaction id (`DeviceRuns.RecordReturns`). A save that fails after its rename can give two
  known devices one id (`DeviceRuns.DuplicateIds`); `DeviceRuns.FitKept` says exactly when.
- When two devices are mounted at one path, an unmount of one can take away the other's mount
  (`DeviceRuns.SharedPath`); `DeviceRuns.CountedKept` says exactly when.
- A `Create` before its parent is registered fails and leaves an empty layers file, which a migration then takes
  for the image's list (`AufsMigrate.FailedCreateStays`).
- The comment on the device lock says device locks are taken before "the device lock"; the code takes them
  before the global lock, and that order is the one proved free of deadlock.
- `bufReader.Read` with an empty slice sleeps on available data (`BufReaders.EmptySliceSleepsOnData`).
- An unquoted word beginning with `#` is a comment to the shell, and quoting leaves it bare.

## Model

| member | source | states |
|---|---|---|
| `Squash.SquashPreservesMeaning` | layer.go:38-151 | The main theorem: over any base tree, wherever the links of a tree lead, and for any stack that meets (L), (S), (W), (F), (D) and (C), the layers of the stack succeed one after another and the one saved layer succeeds with exactly the same tree |
| `Squash.StepExact` | layer.go:46-110 | Per entry the conditions are exact: over rooted collected entries, collecting an entry means the same for the base as applying it if and only if the entry meets (W), (D), (C) and the half of (F) about additions (FileOk) |
| `Meaning.StepSimulates` | Godeps/_workspace/src/github.com/docker/docker/archive/diff.go:44-143 | Applying a clean entry whose parent is there cannot fail, and the tree it leaves is what the collected entries, after collecting the same entry, make of the base |
| `Meaning.WhiteoutStep` | layer.go:87-108 | A whiteout that meets (W) changes nothing outside its path and leaves nothing at or beneath it, in the tree and in the collected entries alike |
| `Meaning.AdditionStep` | layer.go:59-86 | An addition that meets (F), (D) and (C) replaces, merges or fills its path in the tree as it does in the collected entries, and leaves everything outside alone |
| `Meaning.AppliedClean` | Godeps/_workspace/src/github.com/docker/docker/archive/diff.go:57-69 | With its parent directory there, a clean entry is applied without making any directory and without failing |
| `Meaning.AppliedTreeOk` | Godeps/_workspace/src/github.com/docker/docker/archive/diff.go:92-143 | Applying an entry keeps the tree a tree: every path lies in directories of the tree |
| `Meaning.AppliedAnywhere` | Godeps/_workspace/src/github.com/docker/docker/archive/diff.go:54-142 | In any tree an addition succeeds if and only if nothing but a directory stands above it, and makes just the directories that are missing |
| `Meaning.RepresentsUnique` | layer.go:38-112 | Collected entries have one meaning: at most one tree is what they make of a base |
| `Squash.EntriesSimulate` | layer.go:46-110 | The simulation over all entries of a layer, in order |
| `Squash.LayerSimulates` | Godeps/_workspace/src/github.com/docker/docker/archive/diff.go:25-154 | The simulation over a whole layer, with the times of directories set again at its end |
| `Squash.LayerExact` | Godeps/_workspace/src/github.com/docker/docker/archive/diff.go:44-151 | Per layer (S) is exact, also where a link stands at the path of a listed directory: a layer whose entries meet their conditions means what is collected from it if and only if it is settled |
| `Squash.StackSimulates` | graph.go:148-155 | The simulation over a stack of layers, lowest first |
| `Squash.TimesSettled` | Godeps/_workspace/src/github.com/docker/docker/archive/diff.go:145-151 | Setting the times of directories again at the end of a layer, through links, changes nothing and does not fail if and only if the layer is settled, in terms of the collected entries, the base and where links lead |
| `Squash.ListedSettled` | Godeps/_workspace/src/github.com/docker/docker/archive/diff.go:145-151 | A layer is settled when every directory it lists is still listed at its end |
| `Squash.ListedCollected` | layer.go:59-66 | A directory a layer has listed and not taken back is collected, and the entry collected is the last one listed for it |
| `Squash.RootedPreserved` | layer.go:59-108 | Every collected entry lies in collected directories, and collecting one more entry keeps that |
| `Squash.SavedIsGood` | layer.go:122-151 | A saved layer lists directories first, meets every condition over any base, and collecting it again gives back exactly the collected entries |
| `Squash.NeedsWhiteoutOk` | layer.go:95-107 | Where (W) fails, the base's path comes back: the tree and the collected entries disagree at that path |
| `Squash.NeedsFileOk` | layer.go:84-86 | Where (F) fails, some collected addition outlives the file that replaced its directory |
| `Squash.NeedsDirOk` | layer.go:32-35 | Where (D) fails, something the base has beneath the directory comes back |
| `Squash.NeedsCapOk` | layer.go:65-66 | Where (C) fails, the directory shows the wrong capability |
| `SquashExamples.StackOkMeets` | layer.go:38-151 | The hypotheses of the theorem are the six conditions, each on its own |
| `SquashExamples.WhiteoutLost` | layer.go:104-107 | Without (W) only: a file of the base that one layer overwrites and the next removes is back after the saved layer |
| `SquashExamples.DirectoryRefilled` | layer.go:32-36 | Without (D) only, the case the comment in undelete asks about: the old contents of a directory that was removed and made again come back |
| `SquashExamples.FileOverDirectory` | layer.go:84-86 | Without (F) only: the saved layer cannot be applied at all |
| `SquashExamples.WhiteoutUnderFile` | layer.go:84-86 | Without (F) only, and only in its half about whiteouts: the saved layer makes a directory that the stack does not leave |
| `SquashExamples.CapabilityLost` | layer.go:65-66 | Without (C) only: a directory loses the capability that a lower layer gave it |
| `SquashExamples.TimesOnFile` | Godeps/_workspace/src/github.com/docker/docker/archive/diff.go:145-151 | Without (S) only: a directory replaced in the same layer by a regular file with other times leaves its times on the file, and the saved layer does not |
| `SquashExamples.DanglingLink` | Godeps/_workspace/src/github.com/docker/docker/archive/diff.go:145-151 | Without (S) only, also with equal times: a directory replaced in the same layer by a dangling link makes the stack fail, and the saved layer succeeds |
| `SquashExamples.UnlistedParent` | Godeps/_workspace/src/github.com/docker/docker/archive/diff.go:57-69 | Without (L) only: an entry whose whited-out directory is not listed again sorts before the whiteout and is removed by it |
| `Collect.NamesAlways` | layer.go:59-108 | Over any sequence of clean entries every stored header name is its key, with a slash for a directory, and a path and its whiteout are never both collected |
| `Collect.NamesPreserved` | layer.go:46-110 | One clean entry keeps those map invariants |
| `Names.WhPathIs` | layer.go:35-35 | For a plain path, the key that path.Join, path.Dir and path.Base compute to undelete it is the name of its whiteout |
| `Names.VictimIs` | layer.go:89-89 | For the whiteout of a plain path, the key they compute is that path |
| `Names.DottedPath` | layer.go:35-89 | The computed keys are the same under a name with a leading ./ |
| `Names.CleanDotDot` | layer.go:35-89 | In the cleaning behind them a name and the .. after it cancel |
| `Collect.CollectedClean` | layer.go:46-110 | What the loop body does by prefixes of names is, on clean entries, what it says by paths |
| `Collect.WhiteoutRemovesSubtree` | layer.go:95-103 | Whiting out a collected directory removes exactly it and the keys beneath it; siblings that share its text prefix stay, unchanged |
| `Collect.MetadataCollected` | layer.go:67-86 | A file whose base name begins with .wh..wh. is collected under its own name, its own whiteout goes, and nothing else changes, for any name |
| `Collect.FileCollected` | layer.go:71-86 | The same for every file whose base name does not begin with .wh., for any name |
| `Collect.StaysCollected` | layer.go:46-110 | A collected file stays as it is as long as later entries neither overwrite nor remove it |
| `Layers.Layer.Apply` | layer.go:38-112 | The new map is the old one with every entry of the layer collected in order, for any names, unclean ones included |
| `Layers.Layer.ApplyEntry` | layer.go:56-109 | One turn of the loop: directory, addition or whiteout, with the keys package path computes, as collecting that entry says |
| `Layers.Layer.RemoveBeneath` | layer.go:95-103 | Deleting while iterating, in any order, removes just the entries whose header name has the prefix |
| `Layers.Layer.Size` | layer.go:114-120 | The sum over the map in any order is the sum of the sizes of the headers Save emits |
| `Layers.Layer.Save` | layer.go:122-151 | Emits every collected header exactly once, by strictly increasing key |
| `Layers.SavedUnique` | layer.go:123-130 | The saved layer is determined by the collected entries, whatever the order of the map |
| `Layers.DirectoryFirst` | layer.go:130-136 | Every collected directory is emitted before everything collected beneath it |
| `Layers.FileEmitted` | layer.go:38-151 | After any entries before and any later ones that neither overwrite nor remove it, Save emits such a file, aufs metadata included |
| `Layers.SizeOfListing` | layer.go:114-120 | The sum of sizes over any listing of the keys equals the total of the emitted headers |
| `FileTree.Dest.ApplyLayer` | Godeps/_workspace/src/github.com/docker/docker/archive/diff.go:25-154 | Leaves the tree, and reports the failure, that the reference meaning of the layer says |
| `FileTree.Dest.ApplyOne` | Godeps/_workspace/src/github.com/docker/docker/archive/diff.go:54-142 | One entry: missing parents made, metadata skipped, whiteout, replacement or merge, as its reference meaning says |
| `FileTree.StampMeaning` | Godeps/_workspace/src/github.com/docker/docker/archive/diff.go:145-151 | Following links, the times that count at a path are those of the last entry whose path leads to it; nothing else changes |
| `FileTree.StampExact` | Godeps/_workspace/src/github.com/docker/docker/archive/diff.go:145-151 | Stamping a tree changes nothing and does not fail if and only if every listed path leads somewhere and what it leads to in the tree shows the times of the last entry that does |
| `FileTree.MetadataSkipped` | Godeps/_workspace/src/github.com/docker/docker/archive/diff.go:71-90 | An entry whose name begins with .wh..wh. leaves everything in the tree as it is |
| `FileTree.MadeExactly` | Godeps/_workspace/src/github.com/docker/docker/archive/diff.go:61-68 | Making the directories above a path makes exactly those that are missing, with mode 0600 |
| `FileTree.LinkStamped` | Godeps/_workspace/src/github.com/docker/docker/archive/diff.go:145-151 | Where a link stands, setting times sets those of what it leads to, fails when that is nothing, and leaves the tree when that is outside |
| `FileTree.LinksKept` | Godeps/_workspace/src/github.com/docker/docker/archive/archive.go:274-280 | Every link of the tree shows the one mode links have, whatever mode its header names, also after a layer that fails |
| `FileTree.AboveIsDir` | Godeps/_workspace/src/github.com/docker/docker/archive/diff.go:57-69 | In a tree everything above an existing path is a directory |
| `Graphs.Graph.History` | Godeps/_workspace/src/github.com/docker/docker/image/image.go:231-258 | With acyclic parent links the walk ends, with the whole ancestry nearest first, or with an error when and only when some ancestor names a missing parent |
| `Graphs.Graph.Depth` | Godeps/_workspace/src/github.com/docker/docker/image/image.go:288-303 | Equals the length of the history; -1 exactly when a parent is missing |
| `Graphs.Graph.GetParentsSize` | Godeps/_workspace/src/github.com/docker/docker/image/image.go:277-284 | The given size plus the sizes of the proper ancestors that can be reached |
| `Graphs.SizeCounts` | Godeps/_workspace/src/github.com/docker/docker/image/image.go:277-284 | The size of every proper ancestor counts once, and that of the image itself not at all |
| `Graphs.Graph.ExpandID` | graph.go:94-113 | An exact id wins; otherwise some id with the prefix, and an error only when there is none: an ambiguous prefix is not reported |
| `Graphs.Graph.Rebase` | graph.go:115-173 | Reports that the base is absent or an ancestor missing, or folds exactly the history entries strictly between image and base, oldest first, into a layer with its size, every index in range |
| `Graphs.Graph.Squashed` | graph.go:148-165 | The fold of the layers between: the saved layer of what they collect, and its size |
| `Graphs.HistoryUnique` | Godeps/_workspace/src/github.com/docker/docker/image/image.go:244-258 | An image has at most one history, and none if its ancestry is broken |
| `Graphs.HistoryDistinct` | Godeps/_workspace/src/github.com/docker/docker/image/image.go:244-258 | No image comes twice in a history |
| `Graphs.RebaseMeaning` | graph.go:143-172 | Over the file system of the base the rebased layer gives the file system of the image's parent; the image's own layer is what is missing from it. Rebased onto itself an image becomes its own parent with an empty layer |
| `FileInfos.LookUp` | Godeps/_workspace/src/github.com/docker/docker/archive/changes.go:141-158 | Following the elements of a rooted path finds what is at that path, and nothing where there is nothing |
| `FileInfos.CollectFileInfo` | Godeps/_workspace/src/github.com/docker/docker/archive/changes.go:243-295 | The objects built from a walk show exactly the tree of the walk; it fails if and only if some path comes before its directory |
| `FileInfos.ShowsAdded` | Godeps/_workspace/src/github.com/docker/docker/archive/changes.go:276-289 | Putting a new child into the object LookUp found adds that one path to the tree and changes no other |
| `FileInfos.WalkShown` | Godeps/_workspace/src/github.com/docker/docker/archive/changes.go:254-289 | A walk that visits every path of a tree, directories first, is never refused and collects that tree |
| `Changes.AddChanges` | Godeps/_workspace/src/github.com/docker/docker/archive/changes.go:171-233 | Appends exactly the changes at and beneath an object, each path once, a path after every path above it, in whatever order the maps are met |
| `Changes.DeleteRest` | Godeps/_workspace/src/github.com/docker/docker/archive/changes.go:224-231 | Appends a deletion for each child only the old object has |
| `Changes.AllDone` | Godeps/_workspace/src/github.com/docker/docker/archive/changes.go:185-231 | When every child has been done the list is complete: nothing else beneath the path changed |
| `Changes.OnlyItself` | Godeps/_workspace/src/github.com/docker/docker/archive/changes.go:185-192 | What only the old tree has is reported once, and nothing beneath it is |
| `Changes.ChangesOf` | Godeps/_workspace/src/github.com/docker/docker/archive/changes.go:235-241 | The exact list: added iff only in the new tree, modified iff in both with differing stat, deleted iff missing from the new tree while its directory is still one |
| `Changes.ChangesDirs` | Godeps/_workspace/src/github.com/docker/docker/archive/changes.go:298-319 | The same list for two walks, which never fails when each visits its whole tree, directories first |
| `Changes.ModifiedExactly` | Godeps/_workspace/src/github.com/docker/docker/archive/changes.go:196-213 | A path of both trees is listed as modified if and only if its kind, mode, owner or capability differs, or the size of what was no directory, or the seconds, or nanoseconds that both times have |
| `Changes.MapOrderOnlyPermutes` | Godeps/_workspace/src/github.com/docker/docker/archive/changes.go:194-231 | Two runs over the same trees give the same changes, each as often |
| `RoundTrip.ExportChanges` | Godeps/_workspace/src/github.com/docker/docker/archive/changes.go:343-384 | The layer holds, in order, a whiteout for each deletion and the file's entry for each other change that can still be read |
| `RoundTrip.ChangesSize` | Godeps/_workspace/src/github.com/docker/docker/archive/changes.go:321-333 | The sum of the sizes of what was added or modified and is no directory |
| `RoundTrip.ExportedSize` | Godeps/_workspace/src/github.com/docker/docker/archive/changes.go:321-376 | That is the total of the sizes in the exported headers, when no link changed |
| `RoundTrip.Replay` | Godeps/_workspace/src/github.com/docker/docker/archive/changes.go:352-376 | After any number of the changes, the tree is what their exported entries make of the old one, and no entry has failed |
| `RoundTrip.NoParentMade` | Godeps/_workspace/src/github.com/docker/docker/archive/diff.go:57-69 | While an exported layer is applied no missing parent directory ever has to be made |
| `RoundTrip.ApplyExported` | Godeps/_workspace/src/github.com/docker/docker/archive/diff.go:25-154 | Applying the exported changes to the old tree succeeds and gives exactly the new tree's paths |
| `RoundTrip.SameAsNew` | Godeps/_workspace/src/github.com/docker/docker/archive/changes.go:56-59 | What was applied differs from the new tree exactly where a directory of both lost its capability; where something changed its content is the new one |
| `RoundTrip.DiffApplyRoundTrip` | Godeps/_workspace/src/github.com/docker/docker/archive/changes.go:298-384 | Diff and apply undo each other: the result agrees with the new tree path by path in kind, mode, owner, size, seconds, nanoseconds that both have, and capability unless a directory lost one; diffing it against the new tree, either way round, gives no changes if and only if no directory of both trees loses a capability; contents are the new ones wherever equal stat implies equal content |
| `DeviceLocks.OperationsChecked` | Godeps/_workspace/src/github.com/docker/docker/daemon/graphdriver/devmapper/deviceset.go:670-1152 | Every operation takes device lock, global lock and map lock in that order, calls libdevmapper only under the global lock, uses, calls about and waits for a device only under that device's lock, never sleeps under the global lock, and gives back every lock, also after the waits that drop and retake the global lock |
| `DeviceLocks.StepKeepsInv` | Godeps/_workspace/src/github.com/docker/docker/daemon/graphdriver/devmapper/deviceset.go:46-56 | One step of any thread keeps: no lock is held twice, and what every thread has left to do fits what it holds |
| `DeviceLocks.RunKeepsInv` | Godeps/_workspace/src/github.com/docker/docker/daemon/graphdriver/devmapper/deviceset.go:46-56 | The same for every state of every run of any number of threads |
| `DeviceLocks.NoDeadlock` | Godeps/_workspace/src/github.com/docker/docker/daemon/graphdriver/devmapper/deviceset.go:46-56 | In every reachable state with an unfinished thread some thread can make a step |
| `DeviceLocks.OneCallAtATime` | Godeps/_workspace/src/github.com/docker/docker/daemon/graphdriver/devmapper/deviceset.go:46-50 | At most one thread is inside a libdevmapper call |
| `DeviceLocks.OneThreadAtDevice` | Godeps/_workspace/src/github.com/docker/docker/daemon/graphdriver/devmapper/deviceset.go:46-50 | Never are two threads using, calling about or waiting for one device, not even while one of them waits with the global lock given up |
| `DeviceLocks.WaitsReached` | Godeps/_workspace/src/github.com/docker/docker/daemon/graphdriver/devmapper/deviceset.go:831-883 | Unmounting, deleting and shutting down do come to wait for a device with its lock held and the global lock given up |
| `DeviceLocks.CallsReached` | Godeps/_workspace/src/github.com/docker/docker/daemon/graphdriver/devmapper/deviceset.go:670-1116 | Mounting, asking for a status and adding do come to call libdevmapper about their device, and adding to update the pool |
| `DeviceLocks.TableReached` | Godeps/_workspace/src/github.com/docker/docker/daemon/graphdriver/devmapper/deviceset.go:239-252 | Every operation but the pool's status does come to lock the map of devices, and those that only read it under the global lock |
| `DeviceLocks.RunsEnd` | Godeps/_workspace/src/github.com/docker/docker/daemon/graphdriver/devmapper/deviceset.go:800-883 | Every run is finite, so with no deadlock every operation of every thread finishes |
| `DeviceLocks.GlobalFirstDeadlocks` | Godeps/_workspace/src/github.com/docker/docker/daemon/graphdriver/devmapper/deviceset.go:52-55 | A thread that took the global lock before a device lock would deadlock with any operation on that device |
| `DeviceSets.DeviceSet.LoadMetadata` | Godeps/_workspace/src/github.com/docker/docker/daemon/graphdriver/devmapper/deviceset.go:361-379 | A record whose transaction id the set has not reached is not loaded |
| `DeviceSets.DeviceSet.LookupDevice` | Godeps/_workspace/src/github.com/docker/docker/daemon/graphdriver/devmapper/deviceset.go:239-252 | A known device is in the map afterwards and is what is returned |
| `DeviceSets.DeviceSet.SaveMetadata` | Godeps/_workspace/src/github.com/docker/docker/daemon/graphdriver/devmapper/deviceset.go:203-237 | The record is renamed into place before the pool and the set move on to the new transaction id, which may fail |
| `DeviceSets.DeviceSet.RegisterDevice` | Godeps/_workspace/src/github.com/docker/docker/daemon/graphdriver/devmapper/deviceset.go:254-278 | A device that could not be saved is forgotten again; the transaction id it used is not |
| `DeviceSets.DeviceSet.CreateSnapDevice` | Godeps/_workspace/src/github.com/docker/docker/daemon/graphdriver/devmapper/devmapper.go:589-646 | The search ends at the least id, at or above the one it begins with, that the pool does not have; that id is taken even when the call then fails because the base cannot be resumed |
| `DeviceSets.DeviceSet.AddDevice` | Godeps/_workspace/src/github.com/docker/docker/daemon/graphdriver/devmapper/deviceset.go:670-702 | The whole new state of the set and the kernel, for every way its calls may fail |
| `DeviceSets.DeviceSet.DeleteDevice` | Godeps/_workspace/src/github.com/docker/docker/daemon/graphdriver/devmapper/deviceset.go:704-758 | The same for deletion |
| `DeviceSets.DeviceSet.MountDevice` | Godeps/_workspace/src/github.com/docker/docker/daemon/graphdriver/devmapper/deviceset.go:938-992 | The same for mounting: a further mount at the same path only counts, another path is refused |
| `DeviceSets.DeviceSet.UnmountDevice` | Godeps/_workspace/src/github.com/docker/docker/daemon/graphdriver/devmapper/deviceset.go:994-1031 | The same for unmounting: only the last use unmounts and deactivates |
| `DeviceSets.DeviceSet.GetDeviceStatus` | Godeps/_workspace/src/github.com/docker/docker/daemon/graphdriver/devmapper/deviceset.go:1085-1116 | The same for asking for a status: the device is left active, also when the question then fails |
| `DeviceRuns.TidsAlways` | Godeps/_workspace/src/github.com/docker/docker/daemon/graphdriver/devmapper/deviceset.go:203-278 | Over every run, whatever fails, every known device's transaction id is at most the set's, which is at most the newest and equals the pool's |
| `DeviceRuns.CrashIgnored` | Godeps/_workspace/src/github.com/docker/docker/daemon/graphdriver/devmapper/deviceset.go:368-375 | After a crash between the rename and the pool's update the set that starts next does not know the record |
| `DeviceRuns.CrashIsAdd` | Godeps/_workspace/src/github.com/docker/docker/daemon/graphdriver/devmapper/deviceset.go:203-237 | The crash leaves what AddDevice leaves when it fails at that point, once the set starts again |
| `DeviceRuns.RecordReturns` | Godeps/_workspace/src/github.com/docker/docker/daemon/graphdriver/devmapper/deviceset.go:368-375 | Over every run that leaves the device alone its record stays, and the device is known if and only if the set has reached the record's transaction id: a lost record comes back once other operations have committed that far |
| `DeviceRuns.CrashedRecordReturns` | Godeps/_workspace/src/github.com/docker/docker/daemon/graphdriver/devmapper/deviceset.go:368-375 | For instance with the next Add that commits |
| `DeviceRuns.FitKept` | Godeps/_workspace/src/github.com/docker/docker/daemon/graphdriver/devmapper/deviceset.go:670-743 | For every operation, whatever fails: afterwards different devices still have different ids, all held by the pool, if and only if the operation loses no id, that is, is no Add whose save fails past its rename with the id given back, and no Remove whose id is deleted and whose metadata stays |
| `DeviceRuns.FitAlways` | Godeps/_workspace/src/github.com/docker/docker/daemon/graphdriver/devmapper/deviceset.go:670-743 | Over every run, whatever fails, that holds in every state if and only if no operation of the run loses an id |
| `DeviceRuns.IdsAlways` | Godeps/_workspace/src/github.com/docker/docker/daemon/graphdriver/devmapper/deviceset.go:670-743 | In particular no id is lost while metadata writes and removals succeed; then also no record is ahead of the set, and the next id to try is below 2^24 |
| `DeviceRuns.DistinctIds` | Godeps/_workspace/src/github.com/docker/docker/daemon/graphdriver/devmapper/deviceset.go:670-702 | Where ids fit, two known hashes have different ids, both held by the pool |
| `DeviceRuns.LeastFreeId` | Godeps/_workspace/src/github.com/docker/docker/daemon/graphdriver/devmapper/devmapper.go:599-637 | A new device gets the least unused id at or above the next one, and the next one wraps at 2^24 |
| `DeviceRuns.LeastIdAfterRestart` | Godeps/_workspace/src/github.com/docker/docker/daemon/graphdriver/devmapper/devmapper.go:599-637 | A set that has just started gives out the least id the pool does not have at all |
| `DeviceRuns.DuplicateIds` | Godeps/_workspace/src/github.com/docker/docker/daemon/graphdriver/devmapper/deviceset.go:203-237 | A run that loses an id: a save fails after its rename, and after a restart two known devices have one id |
| `DeviceRuns.MountAnswers` | Godeps/_workspace/src/github.com/docker/docker/daemon/graphdriver/devmapper/deviceset.go:938-992 | A mount that succeeds leaves the device mounted at the path asked for; a device in use is mounted again if and only if that is where it is; a refusal changes no count and no mount |
| `DeviceRuns.UnmountAnswers` | Godeps/_workspace/src/github.com/docker/docker/daemon/graphdriver/devmapper/deviceset.go:994-1031 | A device with no use is refused, a further use only counts down, and the last one that succeeds takes a mount at the device's path away and leaves the device inactive |
| `DeviceRuns.AddAnswers` | Godeps/_workspace/src/github.com/docker/docker/daemon/graphdriver/devmapper/deviceset.go:670-702 | A known device or an unknown base is refused; a success leaves the device known under a record with the transaction id the set and the pool move to |
| `DeviceRuns.DeleteAnswers` | Godeps/_workspace/src/github.com/docker/docker/daemon/graphdriver/devmapper/deviceset.go:704-758 | An unknown device, or an active one that is mounted, is refused; a success takes record, id and activation away and forgets no other device |
| `DeviceRuns.StatusAnswers` | Godeps/_workspace/src/github.com/docker/docker/daemon/graphdriver/devmapper/deviceset.go:1085-1116 | The status is given exactly for a known device that is or can be activated and answers, which is then active |
| `DeviceRuns.CountedKept` | Godeps/_workspace/src/github.com/docker/docker/daemon/graphdriver/devmapper/deviceset.go:938-1031 | For every operation, whatever fails: afterwards a positive mount count still means the kernel has the device mounted at exactly its mount path, if and only if the operation does not steal a mount, that is, is not a last unmount whose umount takes the only mount of another device in use |
| `DeviceRuns.CountedAlways` | Godeps/_workspace/src/github.com/docker/docker/daemon/graphdriver/devmapper/deviceset.go:938-1031 | Over every run, whatever fails, that holds in every state if and only if no unmount of the run steals a mount |
| `DeviceRuns.MountsAlways` | Godeps/_workspace/src/github.com/docker/docker/daemon/graphdriver/devmapper/deviceset.go:938-1031 | In particular no mount is stolen when no device is ever mounted where another one is |
| `DeviceRuns.SharedPath` | Godeps/_workspace/src/github.com/docker/docker/daemon/graphdriver/devmapper/deviceset.go:938-1031 | A run that steals: two devices at one path, the first unmounted, and the second is in use and mounted nowhere |
| `DeviceRuns.CountIsBalance` | Godeps/_workspace/src/github.com/docker/docker/daemon/graphdriver/devmapper/deviceset.go:938-1031 | Over every run in which last unmounts and the deactivations after them succeed, wherever devices are mounted, the count equals successful mounts minus successful unmounts, and the device is mounted if and only if it is positive |
| `StdCopying.Uint32RoundTrip` | Godeps/_workspace/src/github.com/docker/docker/utils/stdcopy.go:31-40 | A length below 2^32 survives the four bytes of the header |
| `StdCopying.HeaderBytes` | Godeps/_workspace/src/github.com/docker/docker/utils/stdcopy.go:31-58 | The first byte of a frame is 0, 1 or 2 for the stream it is from, and bytes four to seven are the payload's length in big-endian order |
| `StdCopying.StdWriter.Write` | Godeps/_workspace/src/github.com/docker/docker/utils/stdcopy.go:31-40 | One write puts one frame, or as much of it as the writer takes, down the stream, and counts payload bytes only |
| `StdCopying.StdCopy` | Godeps/_workspace/src/github.com/docker/docker/utils/stdcopy.go:72-164 | For every way the reads split the stream, each side receives what the reference demultiplexer says for the whole stream, with its total and its error, every buffer index in range |
| `StdCopying.CopyFrame` | Godeps/_workspace/src/github.com/docker/docker/utils/stdcopy.go:82-163 | One turn of the loop moves exactly the first pending frame to its side, or ends for the right reason |
| `StdCopying.FetchFrame` | Godeps/_workspace/src/github.com/docker/docker/utils/stdcopy.go:82-140 | The reads of a turn lose no byte and stop with a whole frame in the buffer, or with the reason there is none |
| `StdCopying.FillTo` | Godeps/_workspace/src/github.com/docker/docker/utils/stdcopy.go:84-94 | Reading on until enough bytes are there keeps buffer plus rest of stream the same |
| `StdCopying.MuxDemux` | Godeps/_workspace/src/github.com/docker/docker/utils/stdcopy.go:31-164 | For any writes to the two sides, each shorter than 2^32 bytes, and any cut of the stream: each side gets exactly the payloads of its frames that are whole, and the total is their length |
| `StdCopying.CutFrame` | Godeps/_workspace/src/github.com/docker/docker/utils/stdcopy.go:84-140 | A frame that is cut anywhere delivers nothing |
| `BufReaders.Fifo` | Godeps/_workspace/src/github.com/docker/docker/utils/utils.go:194-225 | In every interleaving, what was delivered followed by what is buffered is what was drained without error |
| `BufReaders.ReadDelivers` | Godeps/_workspace/src/github.com/docker/docker/utils/utils.go:212-219 | A Read that finds data delivers the next bytes, as many as are there and fit |
| `BufReaders.ErrorComesLast` | Godeps/_workspace/src/github.com/docker/docker/utils/utils.go:212-225 | A Read of at least one byte returns the error only when everything drained has been delivered |
| `BufReaders.NeverLeftAsleep` | Godeps/_workspace/src/github.com/docker/docker/utils/utils.go:204-223 | A reader that wants a byte is never asleep with data or an error there unless the very next step of drain wakes it, and drain has not stopped |
| `BufReaders.InvAlways` | Godeps/_workspace/src/github.com/docker/docker/utils/utils.go:194-225 | The invariant of the two goroutines holds in every state of every run |
| `BufReaders.EmptySliceSleepsOnData` | Godeps/_workspace/src/github.com/docker/docker/utils/utils.go:216-223 | With an empty slice both fail, each in a concrete run: Read sleeps with data in the buffer, or returns the error before the data |
| `EnvValues.ReplaceOrAppendEnvValues` | Godeps/_workspace/src/github.com/docker/docker/utils/utils.go:548-563 | For every name k, the last entry of the result that is k or begins with k= is the last such entry of defaults followed by overrides, repeated names and entries without = included; defaults keep their places, in the caller's array unless something is appended, and nothing is when one name that is there is overridden |
| `EnvValues.KeyIs` | Godeps/_workspace/src/github.com/docker/docker/utils/utils.go:551-555 | The name of an entry has no =, and the entry is its name or begins with its name and = |
| `EnvValues.LastEntryReplace` | Godeps/_workspace/src/github.com/docker/docker/utils/utils.go:553-556 | Replacing the last entry for a name changes what is found for that name only |
| `ShellQuote.Quote` | Godeps/_workspace/src/github.com/docker/docker/utils/utils.go:438-458 | Appends the word as it is, or in single quotes with each quote closed, escaped and opened again |
| `ShellQuote.ShellQuoteArguments` | Godeps/_workspace/src/github.com/docker/docker/utils/utils.go:462-471 | The quoted arguments separated by single blanks |
| `ShellQuote.BareExactly` | Godeps/_workspace/src/github.com/docker/docker/utils/utils.go:438-443 | A word is written bare if and only if it is not empty and has none of the characters a shell treats specially, each of which is listed |
| `ShellQuote.ScanQuoted` | Godeps/_workspace/src/github.com/docker/docker/utils/utils.go:438-458 | One quoted word at the start of a token is read back whole by the shell's rules |
| `ShellQuote.QuoteRoundTrip` | Godeps/_workspace/src/github.com/docker/docker/utils/utils.go:438-471 | Splitting and unquoting the result by sections 2.2 and 2.3 of the POSIX Shell Command Language gives the arguments back if and only if no argument is a bare word that begins with '#' |
| `Flags.FlagSet.ParseOne` | Godeps/_workspace/src/github.com/docker/docker/pkg/mflag/flag.go:811-893 | Takes one flag off the arguments, or says to stop or to try letter by letter, as the specification of one flag says |
| `Flags.FlagSet.Parse` | Godeps/_workspace/src/github.com/docker/docker/pkg/mflag/flag.go:899-941 | Ends for every flag set and argument list, and leaves what the specification of a whole parse says |
| `Flags.FlagSet.ParseLetters` | Godeps/_workspace/src/github.com/docker/docker/pkg/mflag/flag.go:907-927 | Each letter of an unknown group is pushed back and parsed, one after another |
| `Flags.OneTakesPrefix` | Godeps/_workspace/src/github.com/docker/docker/pkg/mflag/flag.go:811-893 | One flag takes arguments off the front only, at least one when it was a flag |
| `Flags.LettersTakePrefix` | Godeps/_workspace/src/github.com/docker/docker/pkg/mflag/flag.go:907-927 | Despite the letters pushed back, a group leaves a suffix of the arguments after it |
| `Flags.ParseAll` | Godeps/_workspace/src/github.com/docker/docker/pkg/mflag/flag.go:899-941 | The arguments left over are a suffix of the arguments given |
| `Flags.ValueAttached` | Godeps/_workspace/src/github.com/docker/docker/pkg/mflag/flag.go:830-865 | A value after = that is not in quotes is what the flag is set to, whether or not it is boolean |
| `Flags.ValueQuoted` | Godeps/_workspace/src/github.com/docker/docker/pkg/mflag/flag.go:776-835 | Matching quotes around the value are taken off first |
| `Flags.AttachedSameAsSeparate` | Godeps/_workspace/src/github.com/docker/docker/pkg/mflag/flag.go:830-870 | For a flag that takes a value, -name=value without quotes has the effect of -name and value as two arguments |
| `Flags.NameAlone` | Godeps/_workspace/src/github.com/docker/docker/pkg/mflag/flag.go:848-866 | A boolean flag alone is set to true; a flag that needs a value and has none is an error |
| `Flags.EndOfFlags` | Godeps/_workspace/src/github.com/docker/docker/pkg/mflag/flag.go:815-826 | Parsing ends at the first argument that is no flag, which stays, and at --, which goes |
| `Flags.UnknownName` | Godeps/_workspace/src/github.com/docker/docker/pkg/mflag/flag.go:838-847 | An undefined help name asks for help, and an undefined single letter or long name is an error |
| `Flags.UnknownGroup` | Godeps/_workspace/src/github.com/docker/docker/pkg/mflag/flag.go:907-930 | A group whose first letter is not defined is an error, with nothing set |
| `Flags.GroupSameAsSeparate` | Godeps/_workspace/src/github.com/docker/docker/pkg/mflag/flag.go:907-927 | A group of defined letters, all boolean except possibly the last, has the effect of the letters given separately |
| `Flags.ValueInTheMiddle` | Godeps/_workspace/src/github.com/docker/docker/pkg/mflag/flag.go:907-927 | With a letter that takes a value in the middle the two differ |
| `AufsMigrate.Driver.Create` | Godeps/_workspace/src/github.com/docker/docker/daemon/graphdriver/aufs/aufs.go:163-190 | The layers file lists the parent and then the parent's own list, which is still empty when the parent is the image itself; with an unregistered parent it fails and leaves an empty file |
| `AufsMigrate.Driver.MigrateImage` | Godeps/_workspace/src/github.com/docker/docker/daemon/graphdriver/aufs/migrate.go:138-154 | Ends with the image and its missing ancestors migrated, parents first, and nothing done twice |
| `AufsMigrate.Driver.MigrateImages` | Godeps/_workspace/src/github.com/docker/docker/daemon/graphdriver/aufs/migrate.go:102-136 | Whatever layers files are found and whatever the order of the map: every image is relocated exactly once, every parent is registered before its children, and every image ends with the list found for it or else its parent and the parent's list; that is the full ancestry, nearest first, for all images if and only if every list found is right |
| `AufsMigrate.InheritedRight` | Godeps/_workspace/src/github.com/docker/docker/daemon/graphdriver/aufs/migrate.go:138-154 | One image ends with its full ancestry if and only if the nearest list found among it and its ancestors, if any, is right |
| `AufsMigrate.AllRight` | Godeps/_workspace/src/github.com/docker/docker/daemon/graphdriver/aufs/migrate.go:102-136 | All images do if and only if every list found is right |
| `AufsMigrate.FailedCreateStays` | Godeps/_workspace/src/github.com/docker/docker/daemon/graphdriver/aufs/migrate.go:143-151 | A wrong list arises: the empty one a Create before its parent leaves is found, kept, and not the ancestry |
| `AufsMigrate.AncestorsDistinct` | Godeps/_workspace/src/github.com/docker/docker/daemon/graphdriver/aufs/aufs.go:163-190 | An ancestry names no image twice, and never the image itself |
| `AufsMigrate.ActiveMounts.Get` | Godeps/_workspace/src/github.com/docker/docker/daemon/graphdriver/aufs/aufs.go:247-278 | The first user mounts; every further one only counts |
| `AufsMigrate.ActiveMounts.Put` | Godeps/_workspace/src/github.com/docker/docker/daemon/graphdriver/aufs/aufs.go:280-295 | The last user unmounts; every other one only counts |
| `AufsMigrate.MountedWhileUsed` | Godeps/_workspace/src/github.com/docker/docker/daemon/graphdriver/aufs/aufs.go:247-295 | Over every sequence of Gets and Puts the count is what is outstanding, and an id is mounted exactly while it has users and ancestors |

## Left out

- Names that are not clean: `Layer.Apply` is modelled on all of them, `ApplyLayer` only on names that cleaning leaves alone but for a trailing slash, and the theorems are about relative names without empty, `.` or `..` components and about entries that are no `.wh..wh.` metadata.
- Symbolic links among the parents of a path are not followed while entries are applied, so extraction through a link is not modelled; only the last pass, over the times of directories, follows links. What a link leads to outside the directory is not modelled, nor are the directory's own attributes.
- Hard links, `.wh..wh.plnk`, block and character devices, fifos and sockets.
- Ownership and extended-attribute calls that fail, the umask, and what the kernel does to the times of a directory when something in it changes.
- The time of a directory that MkdirAll makes: it is zero here.
- The encodings (tar, gzip, JSON), temporary files, and read or write errors on tarballs; cloning an image's JSON is the identity.
- Integer widths: sizes, transaction ids and counts are unbounded; only the 32-bit frame length and the 24-bit device id are bounded.
- FileInfos.LookUp: FileInfo objects are values, so the parent link is not kept; an object's path is passed along with it, and putting a child in rebuilds what is above it.
- Changes.ChangesDirs: the two walks happen one after the other, and errors of lstat are left out; a walk is given as the list of what it visits.
- RoundTrip.ExportChanges: the time of a whiteout is not modelled; it has no effect when the layer is applied.
- Graphs.Graph.Rebase: creation time, tarball paths and the rest of the image's configuration are left out; a layer that cannot be read is too.
- DeviceLocks.OperationsChecked: which device object a hash leads to is a parameter, so nothing is said about which hashes stay known while one thread deletes what another looks up; bodies of calls are single steps, and failing calls are free choices.
- DeviceSets.DeviceSet.AddDevice: device sizes and whether a base is left suspended are left out of the state; the lock protocol has the libdevmapper calls.
- Initialising a device set: the pool, the base image, loopback files, and Shutdown as a state change (it is in the lock protocol).
- StdCopying.StdCopy: the two destination writers are different objects, and a source that delivers no bytes without an error does so a bounded number of times.
- StdCopying.MuxDemux: payloads of 2^32 bytes and more, whose length does not fit the header, are excluded, as are writers that run out of room; StdCopying.StdCopy covers the latter.
- BufReaders.Fifo: there is one consumer, as in the program; bytes that the underlying reader returns together with an error are dropped by the code and by the model.
- EnvValues.ReplaceOrAppendEnvValues: appending always makes a new array, so a slice with spare capacity shared with the caller is not modelled.
- ShellQuote.QuoteRoundTrip: the shell here splits and unquotes only; an unquoted operator, expansion, tilde or pattern is taken as not round-tripping, and quoting never produces one. What a shell makes of a whole command is not modelled: it takes a first word such as `A=b` as an assignment, and some bare words as reserved words or aliases.
- Flags.FlagSet.Parse: the parsers of flag values are an arbitrary predicate; usage text, deprecation warnings, and the exit or panic of other error modes are left out, names are bytes, and a value that is a lone quote character, on which trimming panics, ends the parse.
- AufsMigrate.Driver.MigrateImages: relocation succeeds, and containers and repositories are not migrated.
- AufsMigrate.ActiveMounts.Get: diff directories and paths returned are left out.
- Loading a graph from a tar stream, the registry, HTTP, the command line, terminals, cgroups, logging and formatting.
