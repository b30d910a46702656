# A verified model of gear

gear distributes container images by content. A file tree becomes an index in which every
regular file holds the hash of its content (its cid); the contents go to a manager's store.
At run time a FUSE layer and a graph driver fetch them back through a public cache shared by
all images, a private cache per image and the `gear-work` directory, all three made of hard
links, and an overlay mount lays the result under a container. This project models those
parts in Dafny and proves what they keep.

| file | part of the system |
|---|---|
| `Text.dfy` | splitting and joining of separated texts, unsigned decimals |
| `PathWalk.dfy` | how the kernel walks a path through symlinks |
| `NodeList.dfy` | the node list text between manager and clients, joins at once |
| `LowerList.dfy` | the edit of a container's `lower` list |
| `Overlay.dfy` | overlay lookup: whiteouts, opaque and merged directories |
| `Store.dfy` | the manager's store and its handlers |
| `LazyCache.dfy` | storage, public and private caches, gear-work, file nodes and handles, as functions on one disk state, with the cache invariant |
| `TemplateLinks.dfy` | the template loop of a prefetch, with right and wrong templates |
| `FuseFiles.dfy` | `Attr`, `Open`, `ReadAll`, `Readlink` and the prefetch as they run, step by step, against `LazyCache` and `TemplateLinks` |
| `CacheRuns.dfy` | whole runs over all images of a host |
| `ContainerView.dfy` | what a container sees through its layers while the caches run |
| `ConcurrentFill.dfy` | several processes that create and write one cache file at once |
| `ContentTree.dfy` | extraction of a committed layer, in place, over inodes |
| `ImageLife.dfy` | build, push and read of an image; readability of a committed layer |
| `Push.dfy` | one pusher as it runs, and any number of pushers interleaved |
| `Recorder.dfy` | the monitoring session, the `RecordFiles` text and its parser |
| `RecordedPrefetch.dfy` | from a recorded run to the caches of the next one |
| `CopyPath.dfy` | copying ancestor directories |
| `GearWork.dfy` | gear-work as the tree that `CopyPath` fills, tied to `TemplateLinks` |
| `MountCount.dfy` | reference counting of mounts |
| `ReportProtocol.dfy` | recorded / record / report |
| `BuildLoop.dfy` | the monitor's list-and-build loop |

## What the model takes as given

Hashing, compression and unpacking are parameters (`hash`, `enc`, `dec`). A lemma that needs
`dec(enc(b)) == b`, or that a hash does not collide or run in a circle, says so in a
`requires`. A `string` stands for a byte string. The order in which a map is ranged over is
arbitrary: it is a parameter, or a choice inside the method. Requests are answered; the one
missing answer that is modelled is a pull of a cid the store does not have, after which the
FUSE call fails and the disk is as before (`NoReply`, `Failed`).

Paths are walked as the kernel does: symlinks above the last component are followed, at most
40 of them, where they stay inside the directory at hand. A link that is absolute or climbs
out leads outside; what is found there is a parameter (`Host`) that others may change at any
time.

## Where the code falls short of the intent

Each of these is kept as the code has it. A lemma says exactly when the intent is met, or
shows the run that misses it.

- A node list survives the trip only if no address or port holds ':' or ';', so an IPv6
  address does not (`NodeList.RoundTripIff`, `NodeList.Ipv6IsCut`).
- Extraction of a committed layer rewrites files in place, so a file with two hard links is
  hashed twice and its content is lost (`ContentTree.PreservedIff`, `ContentTree.SharedIsLost`).
- The commit path stores raw contents while a pull unpacks. A committed layer is readable
  exactly when the pull of each stub gives the content back: from an entry that the store had
  before, or else from what the last visit of the walk put there
  (`ImageLife.CommitReadableIff`); so the same commit may be readable from one manager and not
  from another (`ImageLife.CommitDependsOnStore`).
- The extraction rewrites the container's own directory, so a second commit of the container
  hashes the stubs of the first (`ImageLife.SecondCommitIff`, `ImageLife.SecondCommitPull`).
- A mount looks into the writable layer of the container that mounted it first; other
  containers read that layer's copies (`LazyCache.ReadIsImageIff`). The lookup follows
  symlinked directories of that layer, so a copy may be found at a path that the layer itself
  has nothing at (`ContainerView.LinkedLeads`).
- For the same reason putting gear-work into the lower list changes what another container
  of the image sees: exactly at the files that the first one has changed and that the other
  container's own layer leaves open (`ContainerView.TransparentIff`,
  `ContainerView.TransparentToAllIff`). A second container reads the original with gear-work
  in its list and the first one's change without it (`ContainerView.SecondContainerDiffers`).
- A symlink in the mount's writable layer shows with the image's target: one that replaces a
  symlink of the image is never noticed, and one over any other file leads nowhere
  (`ContainerView.CopiedLinkAgrees`, `ContainerView.LinkOverFileDiffers`).
- A file that is a symlink in the mount's writable layer but not in the index can be read as
  one: the target is empty, the symlink for gear-work cannot be made, and the process dies,
  exactly if gear-work has nothing there (`LazyCache.ReadlinkIff`,
  `ContainerView.ReadlinkKills`).
- The channel of access records is one per process, so a recorded template can name files of
  another image; linking those breaks gear-work, and nothing that follows repairs it
  (`TemplateLinks.LinkTemplateIff`, `TemplateLinks.ForeignEntry`, `CacheRuns.RunIff`). Below a
  symlink of gear-work such an entry lands in another directory than it names
  (`TemplateLinks.ForeignThroughLink`).
- A download that started before another one finished truncates the finished file
  (`ConcurrentFill.TornRead`). A complete file stays complete exactly when no process that
  found it missing has yet to create it (`ConcurrentFill.StaysCompleteIff`).
- A monitoring session that ends before any record indexes out of range
  (`Recorder.SessionEnds`); paths with spaces or newlines do not survive the record text
  (`Recorder.PipelineIff`).
- `Put` of an image directory counts down although its `Get` does not count
  (`MountCount.TracksIff`, `MountCount.ImagePutUnmounts`).
- A tag that the registry lists twice is built twice in one round
  (`BuildLoop.BuiltAtMostOnceIff`).
- Two joins of one node can both find it unknown; the later write stays
  (`NodeList.KeptIff`).
- `CopyPath` reports success with a deepest ancestor that is not a directory, exactly when the
  target had such an entry before (`CopyPath.CopiedAncestors`).

## Model

| member | source | states |
|---|---|---|
| PathWalk.RelativeLink | fs/fs.go:595-599 | in any tree, a link in directory q whose target is n times ".." and then a path r of directories leads to q without its last n names, then r; and outside if n exceeds the length of q |
| PathWalk.AbsoluteLink | fs/fs.go:595-599 | an absolute link leads outside, wherever it is |
| PathWalk.ChainLimit | fs/fs.go:362-363 | a chain of links arrives if and only if there are at most 40 of them |
| PathWalk.WalkSqueezed | fs/fs.go:595-599 | empty components and "." make no difference to where a path leads |
| NodeList.Manager.HandleJoin | manager/handlers.go:40-69 | one join at a time: a new node is entered under its id, a known one is kept, every entry stays under its own id |
| NodeList.JoinsEnd | manager/handlers.go:46-66 | any number of joins, looking and writing in separate sections, in any order: in the end exactly the old ids and those that have joined are known, each with an old node or one that has joined under it |
| NodeList.KeptIff | manager/handlers.go:46-66 | a known node is kept whatever follows if and only if no join with another node under its id has looked before it was known and has yet to write |
| NodeList.JoinAlone | manager/handlers.go:46-66 | a join that nobody disturbs ends with its node in the table if the id was unknown, and changes nothing else |
| NodeList.Manager.HandleNodes | manager/handlers.go:26-38 | the reply prints every node of the table exactly once, in some order |
| NodeList.GetNodes | pkg/pkg.go:38-57 | the loop computes the parse of the whole text, with its two ways to fail |
| NodeList.EntryFields | pkg/pkg.go:42-53 | an entry field by field: the id is judged first, then address and port must be there, and further fields are dropped |
| NodeList.FirstFailure | pkg/pkg.go:42-47 | the first entry that fails decides the outcome |
| NodeList.TailIsDropped | pkg/pkg.go:41-42 | what follows the last semicolon does not count |
| NodeList.RoundTripIff | pkg/pkg.go:38-57 | for any list of nodes with 64-bit ids, parsing the printed text gives the list back if and only if all addresses and ports are free of both separators |
| NodeList.Ipv6IsCut | manager/handlers.go:31-32 | a concrete node that does not come back |
| NodeList.ClientTableIsManagerTable | client/client.go:117-121 | whatever order the manager walked, the client's table ends equal to the manager's |
| LowerList.EditLower | graphdriver/graphdriver.go:215-241 | the two loops and the insertion compute the edited list text |
| LowerList.EditPlaces | graphdriver/graphdriver.go:229-241 | a list that holds the entry is kept; otherwise the entry sits right before the first mention of the image, at the end if there is none, and the rest is in order |
| LowerList.IdempotentIff | graphdriver/graphdriver.go:221-229 | editing twice equals editing once if and only if the entry holds no ':' |
| LowerList.ChainIsEdit | graphdriver/graphdriver.go:162-258 | down any chain of layers, each edited as it is made (docker makes an `-init` layer and then the container), the list is docker's own list edited once |
| LowerList.EraseUndoesChain | graphdriver/graphdriver.go:217-241 | erasing the entry from the list of any layer of the chain gives back, byte for byte, what docker writes there |
| LowerList.ChildOfEdited | graphdriver/graphdriver.go:169-229 | a child's list that comes through an edited parent is left as it is |
| LowerList.ChainHoldsOne | graphdriver/graphdriver.go:162-258 | in every list down the chain the entry is there exactly once |
| Overlay.LeftmostWins | graphdriver/graphdriver.go:210-241 | where only plain directories lie above a path, overlay lookup is the leftmost layer that has it |
| Overlay.InsertIsTransparent | graphdriver/graphdriver.go:236-241 | putting a layer in front of one it repeats, except where the container's own layer shuts the path, changes no lookup at any path, whiteouts, opaque and merged directories included |
| Overlay.AppendUnseenIff | graphdriver/graphdriver.go:230-239 | at the end of any list, where the edit goes without a mention of the image, a layer stays unseen at a path if and only if it has nothing there or a layer before it has |
| Overlay.MergeEnds | graphdriver/graphdriver.go:236-241 | a whiteout, a file or an opaque directory in any layer ends the merge below a plain directory: nothing from the layers after it is merged |
| Overlay.MiddleHides | graphdriver/graphdriver.go:236-241 | what lower layers hold below a whiteout or a file of a middle layer is not seen, even where the layers above have plain directories |
| Store.Manager.HandleQuery | manager/handlers.go:105-116 | the status tells whether the cid is stored |
| Store.Manager.HandlePush | manager/handlers.go:118-152 | a new cid is stored, a stored one is untouched |
| Store.Manager.HandlePreFetch | manager/handlers.go:154-245 | the archive holds exactly the requested files that are stored; the store is unchanged if and only if the temporary name was not a stored cid |
| Store.ArchiveHas | manager/handlers.go:178-207 | members of the archive carry stored bytes, and exactly the requested stored cids travel |
| Store.ArchiveInOrder | manager/handlers.go:178-207 | members travel in the order of the request |
| LazyCache.PublishKeeps | fs/fs.go:422-448 | filling a new public entry keeps the whole invariant and moves nothing cached |
| LazyCache.LinkPrivateKeeps | fs/fs.go:450-459 | linking a public entry privately cannot fail and shares its inode |
| LazyCache.LinkWorkKeeps | fs/fs.go:502-521 | linking an indexed file into gear-work cannot reach the fatal branch |
| LazyCache.ObtainKeeps | fs/fs.go:382-460 | private, public or pulled: the file is in place afterwards, the fatal branches are not taken, and there is no answer only if the cid is neither cached nor stored |
| LazyCache.AttrKeeps | fs/fs.go:357-583 | Attr keeps the invariant of all caches and of the file node's buffer, and never dies |
| LazyCache.OpenKeeps | fs/fs.go:589-793 | Open does the same and returns a handle that stays readable, on the private file or on a descriptor in the writable layer |
| LazyCache.OneInode | fs/fs.go:382-460 | without an upper copy, Attr and Open succeed exactly when the cid is stored, and then public, private and gear-work entries are one inode |
| LazyCache.PulledIsBuffered | fs/fs.go:428-442 | a file that had to be pulled stays in the buffer of its node and of the handle, one that was cached leaves the buffer as it was |
| LazyCache.AttrSize | fs/fs.go:477-482 | the size that Attr reports is the length of path -> stub -> stored content |
| LazyCache.ReadsStored | fs/fs.go:858-877 | a handle of a cached file reads the stored content, from the buffer branch and from the path branch alike |
| LazyCache.OpenReads | fs/fs.go:589-793 | open then read gives the resolved content |
| LazyCache.ReadAgreement | fs/fs.go:439-482 | Attr, then Open, then ReadAll: resolved content, and Attr gave its length |
| LazyCache.ReadIsImageIff | fs/fs.go:596-607 | a read gives the image's content if and only if the mount's writable layer has no other file there |
| LazyCache.ReadlinkIff | fs/fs.go:795-828 | reading a link kills the process if and only if the index has no link there and gear-work has nothing there; otherwise the link is repeated in gear-work and the invariant kept |
| LazyCache.ReadlinkAgrees | fs/fs.go:795-828 | for a link of the index the target answered is the index's own, and gear-work then holds a symlink to that same target |
| LazyCache.PrefetchTransfer | graphdriver/graphdriver.go:478-530 | public becomes the old cache plus the unpacked recorded hashes that are stored, cached entries keep inode and bytes, exactly the transferred hashes are linked privately |
| LazyCache.MissingInOrder | graphdriver/graphdriver.go:478-485 | what is asked for are the listed hashes that are not public, in the order of the list |
| TemplateLinks.LinkRecordedIff | graphdriver/graphdriver.go:544-572 | linking one recorded entry, right or wrong, keeps the caches right if and only if it does no harm at the place where it lands, which can be told beforehand |
| TemplateLinks.PanicsIff | graphdriver/graphdriver.go:551-556 | a harmless entry makes the request panic if and only if a directory above its place is unknown to the index |
| TemplateLinks.NowherePanicsIff | graphdriver/graphdriver.go:544-556 | an entry that lands nowhere is survived if and only if its directory is there, or the index has the file, or each directory of its path is there or can be made beyond gear-work |
| TemplateLinks.WorkLinkedOut | fs/fs.go:502-520 | below a link that leads out of gear-work the host alone decides what is there, what can be made and whether a link is fatal |
| TemplateLinks.IndexLinkedOut | graphdriver/graphdriver.go:551-553 | below a link that leads out of the index what is beyond decides whether a recorded file is found |
| TemplateLinks.FileInTheWay | graphdriver/graphdriver.go:556-559 | where a file is in the way no directory is made, there or below, and nothing changes |
| TemplateLinks.FallbackLinks | graphdriver/graphdriver.go:551-567 | when the copy has failed but the index has the file, all directories are made without the index, where only directories are in the way, and the file is linked |
| TemplateLinks.LinkTemplateIff | graphdriver/graphdriver.go:542-574 | linking a whole template leaves the caches right if and only if every entry passes that test in its turn; a wrong node is never repaired |
| TemplateLinks.ForeignEntry | graphdriver/graphdriver.go:544-567 | an entry with another image's hash is linked, and gear-work then holds the other content |
| TemplateLinks.ForeignThroughLink | graphdriver/graphdriver.go:544-567 | an entry below a symlink of gear-work lands behind the symlink and gives another file the foreign content |
| TemplateLinks.LinkTemplateKeeps | graphdriver/graphdriver.go:542-574 | linking a template of the image itself never panics, keeps everything and leaves every public recorded file in gear-work |
| TemplateLinks.PrefetchKeeps | graphdriver/graphdriver.go:443-576 | the whole prefetch with such a template keeps the invariant |
| TemplateLinks.PrefetchIff | graphdriver/graphdriver.go:443-576 | with any template, it leaves the caches right if and only if every entry is harmless in its turn after the unpacking |
| FuseFiles.Host.WritePublic | fs/fs.go:422-448 | create, copy, close on a name: same inode if the name existed, a new one otherwise |
| FuseFiles.Host.OpenUpper | fs/fs.go:595-607 | opening a copy that the lookup finds in the writable layer gives a new descriptor on what it holds now |
| FuseFiles.Host.LinkIntoPrivate | fs/fs.go:451-459 | the link step and its fatal branch |
| FuseFiles.Host.MakeDirs | fs/fs.go:506-513 | directories are made from the top down, through symlinks, until one cannot be |
| FuseFiles.Host.MakeNode | fs/fs.go:514-519 | a new name is put where its path leads; one that exists is tolerated |
| FuseFiles.Host.LinkIntoWork | fs/fs.go:504-520 | the gear-work link step, through symlinks, and its fatal branch |
| FuseFiles.Host.UnpackAll | graphdriver/graphdriver.go:497-530 | the unpacking loop, member by member |
| FuseFiles.Host.CopyPath | pkg/pkg.go:93-116 | the loop over the directories above a recorded path, from the index to gear-work |
| FuseFiles.Host.LinkOne | graphdriver/graphdriver.go:545-571 | one turn of the template loop, with the entry that makes the request panic |
| FuseFiles.Host.LinkAll | graphdriver/graphdriver.go:544-573 | the template loop, up to a panic, which leaves what was linked before |
| FuseFiles.Host.PrefetchImage | graphdriver/graphdriver.go:443-576 | filter, request, unpack and link compute `Prefetch`, panic included, and the manager's store is unchanged |
| FuseFiles.FileHandler.ReadAll | fs/fs.go:858-877 | buffer, then path, then the descriptor opened earlier |
| FuseFiles.File.Ensure | fs/fs.go:382-460 | the lookup cascade updates name, buffer and disk as specified |
| FuseFiles.File.Attr | fs/fs.go:357-583 | the step by step Attr computes the specified disk, node and answer |
| FuseFiles.File.Open | fs/fs.go:589-793 | the step by step Open computes the specified disk, node and handle |
| FuseFiles.File.Readlink | fs/fs.go:795-828 | the symlink is answered and repeated, or the process dies |
| CacheRuns.StepIff | fs/fs.go:357-828 | with right caches, an event on any image is survived and leaves every cache right if and only if it is a good one, and only a readlink can be fatal |
| CacheRuns.RunSafe | fs/fs.go:357-828 | a run of good events over all images that share the public cache, with pushes and container writes in between, keeps every cache, file node and handle right and is never fatal |
| CacheRuns.RunIff | graphdriver/graphdriver.go:443-576 | a run survives and ends with every cache right if and only if each event is good in its turn |
| CacheRuns.RunSteady | fs/fs.go:357-793 | every run that survives, wrong templates and all, keeps the public and private caches, nodes and handles right and gear-work a tree of links to the public cache |
| CacheRuns.HandlesReadStored | fs/fs.go:708-712 | from empty caches, a handle of a cached file opened in any run reads the stored content after any further run |
| CacheRuns.UpperHandleReads | fs/fs.go:595-607 | a copy opened in the writable layer reads as it was at the open until that very file is written, whatever happens to its path, in any run |
| CacheRuns.LastChangeCounts | fs/fs.go:595-607 | in any run that survives, what a container last wrote to an open file, the layer last mounted and what is beyond it are what the mount finds until someone changes them again; the first push of a cid counts for good |
| CacheRuns.ServedIff | fs/fs.go:382-460 | after a good run a file without a copy can be served if and only if its cid was stored before the run or pushed in it |
| CacheRuns.BroughtForGood | fs/fs.go:357-828 | what an event brings stays through every further run: a stored file that was asked for or opened is one inode in all three caches, a link that was read is in gear-work, what was prefetched is public and linked |
| ContainerView.WorkRepeatsFuseIff | graphdriver/graphdriver.go:542-574 | with right caches gear-work holds at a path what the mount shows there, if and only if no differing copy lies in the mount's writable layer |
| ContainerView.MountAnswers | fs/fs.go:357-828 | for every file of the image, with or without a copy, the mount as a layer is what the operations answer: the kind and size of Attr, the bytes of Open and ReadAll, the target of Readlink |
| ContainerView.CopiedLinkAgrees | fs/fs.go:362-372 | a symlink of the image that is replaced by a symlink to anything still shows as the image's own and never differs |
| ContainerView.LinkOverFileDiffers | fs/fs.go:795-799 | a regular or special file that is replaced by a symlink always shows as something else, and differs from gear-work if that has it |
| ContainerView.ChainIsTransparent | graphdriver/graphdriver.go:207-241 | down any chain of layers the edited list shows a container, at every path, what docker's own list shows it, as long as its own layer shuts the differing copies |
| ContainerView.TransparentIff | graphdriver/graphdriver.go:207-241 | for a given top layer, with directories over files of the image opaque as overlayfs makes them: this holds for every chain, every content of the other layers and every path if and only if the top layer shuts every path with a differing copy |
| ContainerView.TransparentToAllIff | graphdriver/graphdriver.go:583-607 | it holds for the containers of the image whatever their top layers are if and only if there is no differing copy |
| ContainerView.OwnMountHolds | graphdriver/graphdriver.go:583-607 | the layer of the container that mounted the image hides what the mount finds in it, a copy behind a symlink included |
| ContainerView.TransparentAfterRun | graphdriver/graphdriver.go:207-241 | after any good run from empty caches the container that mounted the image sees no difference, and any other one by that same condition, both ways |
| ContainerView.SecondContainerDiffers | graphdriver/graphdriver.go:583-607 | for every stored file of every image, and every layer of the first container in which its path leads to another file, the run of two events after which a second container sees a difference |
| ContainerView.LinkedLeads | fs/fs.go:595-599 | a directory replaced by a symlink is such a layer, with nothing at the path itself |
| ContainerView.ClimbingLinkLeads | fs/fs.go:595-599 | so is one whose symlink climbs to another directory of the layer |
| ContainerView.LinkedOut | fs/fs.go:595-599 | through a link that leaves the layer the mount finds what the host has |
| ContainerView.ReadlinkKills | fs/fs.go:799-823 | for every special file of every image, the run after which Attr shows a symlink and reading it kills the process |
| ConcurrentFill.StepKeeps | fs/fs.go:422-448 | up to where the latest truncating writer has come the file is right, all other bytes are right or zero |
| ConcurrentFill.Quiescent | fs/fs.go:422-448 | any number of writers, any interleaving: no link is fatal, and with no write in flight the file is absent or complete |
| ConcurrentFill.LatestDone | graphdriver/graphdriver.go:503-516 | a linked reader sees the whole content once the latest truncating writer has written it |
| ConcurrentFill.TornRead | fs/fs.go:394-442 | a run in which a finished, linked file reads empty again |
| ConcurrentFill.StaysCompleteIff | fs/fs.go:394-448 | in a state that the invariant allows, the file stays complete whatever follows if and only if it is complete and no process that found it missing has yet to create it, an empty content apart |
| ConcurrentFill.CompleteForGoodIff | fs/fs.go:394-448 | the same after any run of any number of processes |
| ConcurrentFill.StepTells | fs/fs.go:394-459 | the one fatal step is a link of a file that is not there; only creating and writing touch the file, and only linking gives a link |
| ConcurrentFill.Undisturbed | fs/fs.go:394-459 | a process that is not disturbed ends with its link; it has filled a missing file and left one alone that was there |
| ContentTree.Directories.ExtractAndSaveRegularFiles | graphdriver/tools.go:16-67 | the walk computes the extraction of the tree, in place |
| ContentTree.SameShape | graphdriver/tools.go:28-61 | no path and no kind changes |
| ContentTree.FinalStub | graphdriver/tools.go:29-52 | a file ends as its content hashed once per path that names it |
| ContentTree.SharedIsLost | graphdriver/tools.go:29-52 | a file with several names cannot be resolved to its content, unless hashing it once per name comes back to its first hash |
| ContentTree.PreservedIff | graphdriver/tools.go:16-67 | resolving every stub gives the original tree back if and only if no two paths share a file and contents do not collide; a hash that runs in a circle is excluded for shared files only |
| ContentTree.StoreIsLast | graphdriver/tools.go:38-46 | for any tree the push directory holds under a hash what the last visit with that hash has found |
| ContentTree.StoreIsExact | graphdriver/tools.go:38-46 | for a tree that is kept the push directory is exactly hash -> content |
| ContentTree.StoreIsSmall | graphdriver/tools.go:38-46 | it never has more entries than there are regular files |
| ImageLife.TarAndCopy | build/build.go:258-371 | the build's walk writes the stub archive and the packed files |
| ImageLife.StubsList | build/build.go:319-343 | the archive lists every path with its stub and nothing else |
| ImageLife.BuildReadableIff | build/build.go:286-316 | after build and push every stub unpacks to its content if and only if contents do not collide and the store agreed before |
| ImageLife.BuildPushRead | fs/fs.go:428-482 | a built and pushed image reads back as its tree, with the right sizes, in every reachable state of the caches |
| ImageLife.BuildPushAnswers | fs/fs.go:357-583 | Attr answers for every file that is not a directory what the original tree says: size of the content, symlink with its target, or special file; Readlink answers the tree's target, and gear-work holds it |
| ImageLife.CopiedSymlinkIff | fs/fs.go:362-372 | a copied symlink shows the original if and only if the original is a symlink, whatever the targets |
| ImageLife.MountShowsTreeIff | fs/fs.go:278-335 | the mount shows the original tree, path by path and kind by kind, if and only if each copy of a non-directory in the writable layer shows the original and every other stub unpacks to its content |
| ImageLife.ContainerSeesTree | graphdriver/graphdriver.go:207-241 | down any chain of layers, with gear-work in its list, a container that hides the changes in the mount's writable layer sees at every path what docker's list would show with the original tree as the image's layer |
| ImageLife.BuiltImageInContainer | graphdriver/graphdriver.go:207-241 | the whole way: built, pushed, and after any run from empty caches the container that mounted the image sees exactly that |
| ImageLife.CommitReadableIff | graphdriver/tools.go:29-52 | a committed and pushed layer, with any links and collisions, is readable if and only if the pull of each stub gives its content back, told from the tree, the walk and the store before |
| ImageLife.CommitDependsOnStore | manager/handlers.go:125-151 | the same commit is unreadable from an empty store and readable where an image of the same contents was pushed before |
| ImageLife.SecondCommitIff | graphdriver/graphdriver.go:739-760 | a second commit of the same container resolves to the original contents if and only if the pull of each second stub gives them back |
| ImageLife.SecondCommitPull | graphdriver/tools.go:29-52 | for a file with one name and a fresh second stub, that is if and only if its first stub unpacks to it |
| Push.Pusher.Push | push/push.go:54-134 | the store ends as the directory's entries under the old ones, the directory is removed unless told otherwise |
| Push.NothingIsLost | push/push.go:76-133 | with any number of pushers interleaved, every local file is in its directory or in the store at every step, and no entry changes |
| Push.UploadsOnlyNew | push/push.go:79-95 | no pusher has to upload what the store had from the start; a finished one has cleaned up as told |
| Push.FinalStore | push/push.go:94-121 | when all have finished the store holds the old entries and every local cid, nothing else |
| Push.FinalBytesIff | manager/handlers.go:125-151 | each new cid has its pushers' bytes if and only if they agree |
| Push.CanFinish | push/push.go:54-134 | in every reachable state every pusher can still finish |
| Recorder.PrintRecord | graphdriver/graphdriver.go:383-387 | the loop prints the lines joined by newlines |
| Recorder.ParseRecord | graphdriver/graphdriver.go:448-474 | the loop gathers distinct hashes and the template, and fails on a line without a space |
| Recorder.WordsOfLine | graphdriver/graphdriver.go:458-474 | the second word of a line counts as the hash of the first, whatever follows; so a recorded path with a space stands for its first word |
| Recorder.Monitor.Handle | graphdriver/graphdriver.go:367-440 | one turn of the select loop |
| Recorder.Monitor.Serve | graphdriver/graphdriver.go:366-441 | the loop serves events until it has reported or failed |
| Recorder.SessionInvariant | graphdriver/graphdriver.go:364-381 | for every order of events the lists stay in step, names are distinct, at most one report is sent |
| Recorder.SessionEnds | graphdriver/graphdriver.go:375-440 | the first timer or unmount reports once with first hashes per path, or fails if nothing was recorded; later events count for nothing |
| Recorder.PipelineIff | graphdriver/graphdriver.go:364-474 | recorder, printer and parser together give the first hash per path and the distinct hashes in order if and only if the records are clean |
| RecordedPrefetch.RecordedPrefetchWorks | graphdriver/graphdriver.go:443-576 | a recorded run of an image makes a prefetch that cannot fail and brings every recorded file that is stored into public cache and gear-work, as one inode |
| CopyPath.Copy | pkg/pkg.go:80-119 | the loop computes the copy of the chain |
| CopyPath.CopyKeeps | pkg/pkg.go:93-116 | at every step the tree stays closed and old entries are untouched; each new entry is a directory where a missing name of the chain leads, with the masked mode of the source directory and its user and group, unless the chown there failed, and then those of the process; on success the whole chain is there |
| CopyPath.CopiedAncestors | pkg/pkg.go:118-118 | on success every ancestor is there, and leads to a directory if and only if it is not the deepest one or the target had nothing else there before |
| CopyPath.FailedCopy | pkg/pkg.go:101-114 | on failure what was added is the missing part of a first piece of the chain |
| CopyPath.CopySucceedsIff | pkg/pkg.go:93-118 | copying, through symlinks on both sides, succeeds if and only if every directory of the chain passes a test that can be made beforehand |
| CopyPath.PlainLookup | pkg/pkg.go:95-99 | where no link lies above a name both lookups are the literal ones |
| CopyPath.LinkedOutLookup | pkg/pkg.go:95-99 | below a link that leads out, what is beyond decides, on either side |
| GearWork.PathCopyIsModelled | graphdriver/graphdriver.go:549-551 | the loop over the components of a path's text, from the index to gear-work, ends as the copy of the cache model does and leaves the same directories, in every state |
| GearWork.PathText | pkg/pkg.go:85-94 | the text of a path stands for the path, with a leading or a doubled separator as well |
| MountCount.Driver.DoGet | graphdriver/graphdriver.go:599-607 | a container's get counts and mounts first |
| MountCount.Driver.DoPut | graphdriver/graphdriver.go:623-661 | any put of a layer with a gear link counts down, unmounting at one or less |
| MountCount.CountIsSaturating | graphdriver/graphdriver.go:599-660 | over every sequence of calls the counter is the saturating count, stored values are positive, mounted means counted |
| MountCount.TracksIff | graphdriver/graphdriver.go:287-293 | in a balanced run the counter is the number of outstanding containers throughout if and only if the image directory is only put while there are none |
| MountCount.MountedWhileOutstanding | graphdriver/graphdriver.go:599-660 | then the mount is there exactly while some container is outstanding |
| MountCount.ImagePutUnmounts | graphdriver/graphdriver.go:626-646 | the run that takes the mount from under a container |
| ReportProtocol.Client.HandleRecorded | client/handlers.go:167-179 | a first question starts the record and is answered Ok, any later one is answered Created and changes nothing |
| ReportProtocol.Client.HandleRecord | client/handlers.go:181-200 | a cid is added while the image is recording |
| ReportProtocol.Client.HandleReport | client/handlers.go:202-227 | a recording image is reported once and the monitor's status handed on; otherwise the answer is Ok and nothing is sent |
| ReportProtocol.SameKeys | client/handlers.go:173-174 | both maps always know the same images |
| ReportProtocol.PhasesAdvance | client/handlers.go:167-210 | absent, recording, reported, never back |
| ReportProtocol.AtMostOneReport | client/handlers.go:205-209 | in every run one report per image at most, sent exactly when the image counts as reported |
| ReportProtocol.OneReport | client/handlers.go:167-227 | the report holds exactly the cids recorded between the first question and the first report request; what comes later is not kept |
| BuildLoop.Exist | monitor/monitor.go:218-225 | membership by a linear search |
| BuildLoop.Monitor.GetRepositories | monitor/monitor.go:119-216 | the nested loops compute both tables of the registry |
| BuildLoop.Monitor.BuildTags | monitor/monitor.go:230-237 | the tags of one repository are built in the order of their list |
| BuildLoop.Monitor.BuildAll | monitor/monitor.go:227-240 | what is built is the listed images, repository after repository in some order, doubled tags twice; the registry gains exactly their gear tags |
| BuildLoop.RoundBuildsOnceIff | monitor/monitor.go:227-240 | a round builds each image once if and only if none of its lists has a tag twice |
| BuildLoop.SourceIff | monitor/monitor.go:166-172 | a repository is a source if and only if its name ends neither in "-gear" nor in "-gearmd" |
| BuildLoop.WantedIff | monitor/monitor.go:165-203 | an image is to be built if and only if it is a tag of a repository with neither suffix that the repository with "-gear" behind its name does not have |
| BuildLoop.MissingDistinct | monitor/monitor.go:196-200 | a tag list without duplicates gives a build list without duplicates |
| BuildLoop.MissingInOrder | monitor/monitor.go:190-201 | the build list keeps the order of the tag list |
| BuildLoop.BuiltAtMostOnceIff | monitor/monitor.go:119-240 | no run of uploads, rounds and builds builds an image twice if and only if the registry lists no missing tag twice |
| BuildLoop.BuiltFromSources | monitor/monitor.go:166-172 | in any run from any registry no gear image is a source, and what was built is in its gear repository |
| BuildLoop.RoundConverges | monitor/monitor.go:107-111 | from any state in which a round can start, a finished round without uploads leaves nothing to build |
| BuildLoop.UploadedIsBuilt | monitor/monitor.go:107-111 | an image that is pushed while nothing is left to build is in its gear repository once the next round is built |

## Left out

- LazyCache.Attr: a pull that answers with an error status, or an archive that does not unpack, is not modelled; the code only logs it.
- TemplateLinks.LinkRecorded: file modes and owners set on links are not modelled, hard links share them.
- CacheRuns.RunSafe: events are single steps; several downloads of one cid at once are in ConcurrentFill.
- Push.Step: one push request is one step; its look-create-copy inside the manager follows ConcurrentFill.
- Store.Manager.HandlePreFetch: two requests in the same second draw the same temporary name; one request at a time is modelled.
- TemplateLinks.LinkRecordedIff: recorded paths are made of names; "." and ".." as components of a recorded path are not covered, file node paths never have them.
- PathWalk.Walk: a symlink that leaves the directory and comes back into it by name counts as leading outside.
- BuildLoop.Step: a push of a built image always succeeds, and nothing is deleted from the registry.
- Recorder.Monitor.Serve: the second session that a third `Get` of the same id would start beside the first is not modelled.
- Recorder.Run: which `Get` starts a session (never for an "-init" layer, not on the first `Get` of an id) is not modelled.
- ImageLife.TarAndCopy: the `gear-image` link and the copy of RecordFiles that the build adds are left out.
- FuseFiles.FileHandler.ReadAll: a second read of one handle on a file in the writable layer goes on at the end of the file; one read per handle is modelled.
- LazyCache.Open: a symlink copied into the mount's writable layer is followed by the open; its descriptor reads nothing here.
- The texts `/RecordFiles` and `/prefetched` inside an image are not content stubs and not in the index.
- `handleGet` and `handleDownload` of the client, and `FileHandler.Read`: they keep other conventions than the decompressed cache.
- What a container sees is stated while the image is mounted; after an unmount the image's layer is an empty directory.
- HTTP, FUSE and overlay mounting, signals, the docker client, logging and timing: only the state change or message of each is modelled.
- gzip, tar, MD5 and FNV: parameters.
- Times, inode and device numbers and modes of files, except mode and owner in `CopyPath`.
- How the gear-work name is derived from the `l/` link, the copy of the `gear-lower` link, the overlay mount and archive stage of `Diff`, the shape that `ApplyDiff` gives an image directory, and the pass-through methods of the driver.
- Membership loops of manager and client, `ParseImage`, the `-gearmd` build of the monitor, the command line and the evaluation scripts.
