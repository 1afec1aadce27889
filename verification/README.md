# NSMT file synchronisation, modelled and proved in Dafny

NSMT keeps a directory in step between the machines of one tenant. A client (`yggd`) hashes its shared
directory into a tree, uploads the objects the tree names, asks the server how its tree differs from the
latest one and rewrites its files accordingly. Files travel in chunks, chunks in frames, and chunks may be
encrypted under a rotating list of keys. A lease registry keeps two machines from uploading one path at
once. The same repository holds a small knowledge-base editor with its own front-matter, log and
timestamp code, a backup archive, and an object store shared by tenants.

This project models that logic and proves what it promises, over every input and every run of the steps it
models: a client's question, its pull and its push are steps of their own, also at startup, and other
clients act between them. `dafny verify dfyconfig.toml` checks everything.

## Layout

| file | what it holds |
|---|---|
| `Common`, `ByteStrings`, `Utf8`, `Text` | bytes, little-endian integers, UTF-8 (RFC 3629 section 3), string searches and lines |
| `TreeHash` | the tree hash as an undelimited byte stream, and why it can be decoded |
| `ConflictNames` | names of conflict copies and which of them a tree picks up |
| `SyncModel`, `TreeFacts`, `PullFacts`, `SyncInvariant`, `SyncRuns`, `SyncRounds`, `SyncPeace` | server, clients, pulls and pushes as values; what trees and diffs say about files; the invariant; results over runs; what two rounds of pulls reach; exactly when conflicts are over |
| `SyncExample`, `SyncSetting`, `SyncStale` | short runs: a published file arrives, and each way in which a promise fails; a setting in which they all happen, from an empty server; and a run in which a conflict comes back |
| `SyncMachine` | the same server and client as objects with loops, each method proved against `SyncModel` |
| `E2E`, `Upload`, `Download` | encryption with key rotation, one session's chunked upload, the download loop |
| `SharedFile`, `SharedUpload`, `OpenedUploads`, `Journey` | the temporary file that all sessions of a tenant share, uploads in the midst of others, uploads of which nothing is assumed, and a file's whole way from one machine to another |
| `FrameCodec`, `FrameStream` | frames as bytes, and frames read from a stream that arrives in arbitrary pieces |
| `LeaseLocks`, `LeaseWire` | the lease registry under a clock that never goes back, with its cleaner; leases as a session reports them |
| `Calendar`, `Timestamps` | civil dates and ISO timestamps |
| `Archive` | the backup archive |
| `OkfEdit`, `OkfRoundTrip`, `OkfLog` | the front-matter line editor and the log appender |
| `ObjectStore` | what reads find after writes, prefixes on a shared back end, and put-if-absent against overwriting |

## What the code does that its promises do not say

Each of these is proved, where it is a failure with the exact condition under which it happens.

- **Convergence has one exception.** A pull keeps a copy of every local file it overwrites with other
  content, also when the local file was in step with the server. The copy of a nested file is not hidden
  from the next tree, so one pull makes the share equal to the latest tree exactly when it overwrites no
  nested file (`SyncInvariant.LandConverges`, `ConflictNames.CopyVisibleIffNested`; a run in which it does:
  `SyncExample.NestedOverwriteShows`).
- **Conflicts end when shares agree, and a hasty push brings them back.** At rest, no file is written over with
  other content in any later run without edits, whatever is pushed and pulled, exactly when the shares and the
  latest tree agree wherever two of them overlap (`SyncPeace.PeaceIff`). One round brings that about, conflicts and
  all, if every client starts it in step with an archived tree and lands a reply with every blob obtained, nobody
  edits, copies get unused names, and a client pushes only after it has landed, or what is the latest tree
  already; the copies may be pushed as soon as they are made (`SyncRounds.FirstRoundAgrees`). Once the watchers
  have fired and no reply is on its way, a second such round overwrites nothing and brings all clients to one
  share, copies included (`SyncRounds.SecondRoundAllEqual`, `SyncRounds.TwoRoundsSuffice`). A client that pushes
  before it has landed undoes this: its own poll then brings nothing, and a client that wrote over a nested file
  before writes over it again, although all have landed (`SyncPeace.StalePushWritesAgain`; a run from an empty
  server: `SyncStale.StaleHappens`).
- **A pull can lose an edit.** A file edited after its tree was published is lost exactly when the latest
  tree dropped its path and its new content was never stored (`SyncInvariant.LandLosesExactly`; a run:
  `SyncExample.EditIsLost`).
- **A push can clobber.** It keeps what others published exactly when the pusher's share already has it
  (`SyncRuns.PushKeepsIff`; a run: `SyncExample.WatchPushClobbers`). Pulling first does not prevent that at
  startup, since others may push before the startup's own push does: it keeps what is published exactly when
  nothing published at its question has been rebound since and everything published since is in the merged
  share already (`SyncRuns.StartPushKeepsIff`). Two overlapping startups are enough to lose a published file
  (`SyncExample.OverlappingStartupsClobber`); startups that nothing overtakes lose none
  (`SyncRuns.StartupsNeverClobber`).
- **The tree hash frames nothing.** It identifies the content of every tree that `build_tree` makes, but
  trees from elsewhere can share a byte stream (`TreeHash.ForeignTreesCollide`).
- **Uploads of one blob spoil each other.** The temporary file belongs to the tenant and the blob, not to the
  session, and the start of an upload removes it. A session whose chunks have all come completes even if
  another has removed some of them meanwhile: what it stores is the original exactly when every chunk has been
  written since the last removal, by whichever session, chunks of zeros before the last one excused
  (`SharedFile.FileIsOriginalIff`, `SharedUpload.StoredRightIffInRun`; a run in which zeros are stored in
  place of the first chunk: `SharedUpload.SecondUploadSpoils`). The local back end keeps an object that it has, so
  only a first upload can go wrong there; the shared ones overwrite, so there a right object can be replaced by a
  wrong one, under the same condition. While nobody removes a file that another session is writing, everything
  stored is right (`SharedUpload.UndisturbedStoresRight`).
- **An empty file is never stored**: it has no chunk, so no chunk can complete it
  (`Upload.EmptyNeverStored`).
- **A late renewal shows the cleaner.** If renewals come in time the cleaner changes no answer; a lease
  renewed after its expiry lives or dies by whether the cleaner came first (`LeaseLocks.CleanerInvisibleIff`,
  `LeaseLocks.LateRenewalShows`).
- **A refused renewal is reported as granted.** Two requesters can so both be told that they hold a path, although
  the registry never grants it twice; as they are told, leases are exclusive exactly when the registry refuses no
  renewal (`LeaseWire.ExclusiveIff`, `LeaseLocks.NeverTwoHolders`).
- **A file that was only touched may go unreported.** The tree hash leaves modification times out, so a push that
  changes nothing else replaces the archived tree it is compared with (`TreeFacts.ReplyAfterPushes`).
- **Tenant keys rely on master keys of one length**, since domain and master key are hashed without a mark between
  them (`E2E.OpensAcrossIff`, `E2E.TenantsApart`, `E2E.LongerMasterMeets`).
- **Editing eats a trailing blank front-matter line**, one at a time (`OkfRoundTrip.EditRoundTrip`,
  `OkfRoundTrip.BlankLineIsLost`), and
  **glues an old `#` comment to the new value**, so the value read back is the value written exactly when
  the old line had no `#` (`OkfEdit.ReadBackIffNoComment`).
- **The log's headings go from oldest to newest**, although its documentation says newest first
  (`OkfLog.NewestLast`), and an entry that ends like a heading misplaces later entries
  (`OkfLog.AppendRefines`, `OkfLog.MimicMisplaces`).
- **Archive lengths are cut to 32 bits**: an archive gives its files back exactly when all lengths fit
  (`Archive.SurvivesIffShort`).
- **A tenant's domain with a slash can reach another tenant's objects**: two tenants of one back end are
  isolated in every run exactly when neither's name root extends the other's
  (`ObjectStore.IsolatedIffApart`, `ObjectStore.SlashInDomain`).

## Assumptions

- SHA-256 has no collision among the strings hashed in a run (`Hasher.known`). No function into 64
  hexadecimal digits is injective on all byte strings, so more would be contradictory.
- The AEAD opens what it sealed under the same key and nonce, and nothing sealed under another key, or, where
  chunks out of place are concerned, under another nonce (RFC 8439 section 2.8).
- Conflict copies get names nobody uses yet: the clock has moved on since the last copy (`FreshFor`), and in the
  first round of the results about two rounds, no other client's share, no reply in flight and not the latest tree
  has a file of that name either (`OwnNames`; names hold the requester). Copies made by one pull never share a
  name; that is proved, not assumed.
- In the whole-system runs and in `Upload` the store is the local back end, which keeps what it has. Since every
  stored object hashes to its key there, one that overwrites holds the same objects
  (`ObjectStore.KeepingIsOverwriting`). `SharedUpload`, where wrong bytes can be stored, has both.
- In runs of the whole system every upload is granted and accepted, every uploaded file is non-empty,
  `save_tree` is one step, so is a client's build-then-push, and so is a pull of all that a reply lists. The
  question, the pull and the push of a startup are separate steps. Since a push is one step, these runs hold no
  two sessions that upload the same blob at once; `SharedUpload` is about those.
- In `SharedUpload` a chunk's write, and the read-back of a complete file together with its storing, are single
  steps; the removal after it is a step of its own. One blob id stands for one content.
- Objects that a client obtains hash to the id it asked for (`Addressed`). For the server's objects that is
  proved; for a peer's it is assumed, since the client does not hash what it receives.
- Several shared back ends file a key under its non-empty pieces between slashes; that their escaping of
  a piece is injective is taken from the library they come from.
- The chunk size is a parameter `C > 0`; the code uses 1 MiB. Clock readings, expiry times and
  modification times are unbounded integers.

## Model

| member | source | states |
|---|---|---|
| TreeHash.SortedListingUnique | crates/nsmt-server/src/fs.rs:119-130 | Distinct paths sort to one listing: the hash does not depend on the order in which a directory is read |
| ByteStrings.AtMostMeans | crates/nsmt-client/src/fs.rs:68-68 | Paths are ordered by the first byte in which they differ, a path before those that extend it |
| TreeHash.PathEnd | crates/nsmt-client/src/fs.rs:33-44 | Where a path ends in the stream is forced: a digest and the low byte of the mode cannot be the middle of a UTF-8 path |
| TreeHash.EntrySpelled | crates/nsmt-client/src/fs.rs:33-44 | Byte by byte what an entry feeds to the hash: path, blob id, two bytes of mode and eight of size, least significant first |
| TreeHash.FirstEntry | crates/nsmt-client/src/fs.rs:33-44 | Equal streams of well-formed entries start with the same entry and go on equally |
| TreeHash.StreamInjective | crates/nsmt-client/src/fs.rs:33-44 | The undelimited stream is uniquely decodable for trees that a client builds |
| TreeHash.HashInputDeterminesContent | crates/nsmt-server/src/fs.rs:119-130 | Two trees with distinct paths feed the hash equal bytes iff their sets of (path, blob, mode, size) are equal |
| TreeHash.ForeignTreesCollide | crates/nsmt-server/src/fs.rs:119-130 | Without the restriction to trees as built, every entry with a blob id shares its stream with another path's |
| Utf8.TailFollowsNonAscii | crates/nsmt-client/src/fs.rs:78-112 | In valid UTF-8 a continuation byte never follows an ASCII byte |
| Utf8.ValidIffEncoded | crates/nsmt-client/src/fs.rs:86-90 | A byte string is a string iff it encodes code points by the table of RFC 3629 section 3 |
| Utf8.LossyReplaces | crates/nsmt-server/src/admin.rs:403-403 | Lossy decoding puts U+FFFD for the longest beginning of a character that breaks off there, or for one byte |
| Utf8.LossyIsValid | crates/nsmt-server/src/admin.rs:391-415 | Whatever bytes an archive holds as a name, the name that is written is valid UTF-8 |
| ConflictNames.ConflictNameInjective | crates/nsmt-client/src/fs.rs:161-182 | One requester's copies of different files never share a name, whatever the clock reads |
| ConflictNames.NameSpelled | crates/nsmt-client/src/fs.rs:161-182 | The copy of a file is named, in the file's directory, by the mark, the requester, the path with slashes turned to underscores, and the clock reading |
| ConflictNames.SameNameIff | crates/nsmt-client/src/fs.rs:161-182 | Copies of any requesters at any readings have one name iff directory and reading agree and so do requester, dash and flattened path taken together |
| ConflictNames.CopyVisibleIffNested | crates/nsmt-client/src/fs.rs:78-112 | The next tree picks up a conflict copy iff the copied file is inside a directory |
| SyncModel.TreePaths | crates/nsmt-client/src/fs.rs:65-112 | A built tree has distinct paths and exactly one entry for every visible file |
| SyncModel.TreeViewOfShare | crates/nsmt-client/src/fs.rs:65-76 | A built tree binds each path to the hash of what the share holds there |
| SyncModel.ChangedMeans | crates/nsmt-server/src/fs.rs:88-115 | A diff reports a path as changed iff it is new, or its content or modification time differs |
| SyncModel.ChangedDistinct | crates/nsmt-server/src/fs.rs:88-115 | A diff reports no path twice, and only paths of the latest tree |
| TreeFacts.VisibleMeans | crates/nsmt-client/src/fs.rs:91-94 | The files left out of trees are those whose names start with `.sync-conflict-` or `.nsmt-` |
| TreeFacts.TreeDescribes | crates/nsmt-client/src/fs.rs:65-112 | The tree of a share has, in path order, exactly one entry for every file that is not hidden, with the hash and length of its bytes, mode 0644 and its modification time, and its hash is that of its stream |
| TreeFacts.DiffOfShares | crates/nsmt-server/src/fs.rs:88-115 | Asked about the tree of one share when the latest is that of another, the reply has as changed what the other has and this one lacks or has with another hash or time, and as removed what only this one has |
| TreeFacts.DiffOfFiles | crates/nsmt-server/src/fs.rs:88-115 | Where contents do not collide, changed is exactly what the other share has and this one has not, bytes and modification time included |
| TreeFacts.FiledUnderOwnHash | crates/nsmt-server/src/session.rs:179-186 | Whatever hash a tree carries, it is archived under the hash of its own stream and is the latest; all other trees and the objects stay |
| TreeFacts.ReplyAfterPushes | crates/nsmt-server/src/session.rs:179-195 | After two clients have pushed, the first one's tree is compared with the second one's; if both have one hash nothing is reported, files touched meanwhile included |
| SyncMachine.ServerFs.PutObject | crates/nsmt-server/src/fs.rs:45-47 | On the local back end storing keeps an object that is already there; nothing else is touched |
| SyncMachine.ServerFs.SaveTree | crates/nsmt-server/src/fs.rs:58-63 | A saved tree is archived under its hash and becomes the latest |
| SyncMachine.ServerFs.OnFileTree | crates/nsmt-server/src/session.rs:179-186 | A tree from a client is filed under the hash of its own stream, whatever hash it carries, and is the latest |
| SyncMachine.ServerFs.Compare | crates/nsmt-server/src/fs.rs:101-112 | The loop that removes what it has seen ends with the changed paths in order and the dropped ones left over |
| SyncMachine.ServerFs.Diff | crates/nsmt-server/src/fs.rs:88-115 | The loops compute the changed and removed paths of two trees, each removed path once |
| SyncMachine.ServerFs.OnFileDiff | crates/nsmt-server/src/session.rs:187-195 | The reply is the diff between the tree asked about, if archived, and the latest one |
| SyncMachine.Yggd.BuildTree | crates/nsmt-client/src/fs.rs:65-112 | Whatever order the directory is walked in, the result is the tree of the share: for each file that is not hidden one entry, in path order, with the hash and length of its bytes, mode 0644 and its modification time |
| SyncMachine.Yggd.MaterializeWithConflict | crates/nsmt-client/src/fs.rs:161-182 | A differing local file is copied before it is overwritten; nothing else changes |
| SyncMachine.Yggd.PullObject | crates/nsmt-client/src/main.rs:403-430 | The server's copy wins, a peer's copy is the fallback |
| SyncMachine.Yggd.Poll | crates/nsmt-client/src/main.rs:370-397 | One round of the periodic pull is `PollLand` of the server's reply, whatever other sessions do to the server before the pull |
| SyncMachine.Yggd.SyncPush | crates/nsmt-client/src/main.rs:432-448 | The upload loop stores every entry's object through the cache, then files the tree |
| SyncMachine.Yggd.OnWatchEvent | crates/nsmt-client/src/main.rs:362-369 | A watch event is one `Push` |
| SyncMachine.Yggd.Align | crates/nsmt-client/src/main.rs:295-309 | The pull of startup takes over what the reply says, from the server or from peers, and remembers the merged tree |
| SyncMachine.Yggd.Start | crates/nsmt-client/src/main.rs:292-315 | Startup asks, pulls, and pushes the merged share, whatever other sessions do to the server between those |
| PullFacts.PullDescribes | crates/nsmt-client/src/main.rs:378-391 | After a pull: fetched paths hold the fetched bytes, overwritten files have copies, others are untouched, nothing else exists |
| PullFacts.PullCache | crates/nsmt-client/src/main.rs:378-386 | After a pull every fetched blob is in the local cache, which gains nothing else and loses nothing |
| SyncInvariant.HashNamesView | crates/nsmt-server/src/fs.rs:119-130 | Genuine trees have the same hash iff they bind the same paths to the same content |
| SyncInvariant.PushStores | crates/nsmt-client/src/fs.rs:191-280 | A push stores every entry's own bytes under its id, in the store and in the pusher's cache, and drops or rebinds no object in either |
| SyncInvariant.PushKeepsServer | crates/nsmt-client/src/main.rs:432-448 | A push keeps the server's invariant and makes the pushed share the latest tree |
| SyncInvariant.PollSkipsNothing | crates/nsmt-client/src/main.rs:370-397 | Returning early on an empty diff changes no file |
| SyncInvariant.LandCovers | crates/nsmt-client/src/main.rs:292-308 | After a pull with every blob obtained the share binds every path of the latest tree to its content |
| SyncInvariant.LandConverges | crates/nsmt-client/src/main.rs:370-397 | A client whose tree is archived ends with the latest tree, conflict copies aside; with exactly it iff no nested file was overwritten |
| SyncInvariant.LandLosesExactly | crates/nsmt-client/src/main.rs:378-391 | A local file is lost iff its path was dropped and its content is not stored |
| SyncInvariant.UneditedSurvives | crates/nsmt-client/src/main.rs:378-391 | A file not edited since the tree asked about was built always survives: at its path, in a copy or in the store |
| SyncRuns.StepKeepsInv | crates/nsmt-server/src/fs.rs:58-85 | Every edit, push, question and pull, at a poll or at a startup, keeps the invariant and drops no object |
| SyncRuns.RunKeepsInv | crates/nsmt-server/src/fs.rs:58-85 | So does every run |
| SyncRuns.ReachableInv | crates/nsmt-server/src/fs.rs:58-85 | In every state reachable from an empty server the latest tree is archived under its hash, every named blob is stored, every object hashes to its key |
| SyncRuns.PollConverges | crates/nsmt-client/src/main.rs:370-397 | One poll reaches the latest tree at the time of asking, whatever other clients do before the reply lands |
| SyncRuns.SettledIsArchived | crates/nsmt-server/src/fs.rs:66-85 | A share with the latest tree's content has its hash, so the next poll asks about an archived tree |
| SyncRuns.SettledDiffEmpty | crates/nsmt-server/src/session.rs:187-195 | Such a client's next diff is empty, although modification times differ |
| SyncRuns.QuietRunSettles | crates/nsmt-client/src/main.rs:292-397 | Over every run of polls, startups and pushes of pulled shares that overwrites no nested file, each client that completes a pull holds the latest view and keeps it |
| SyncRuns.EditsStopThenAllEqual | crates/nsmt-client/src/main.rs:292-397 | Once edits stop and every client has pulled without overwriting a nested file, all shares equal the latest tree and every next diff is empty |
| SyncRuns.FlatEditsStop | crates/nsmt-client/src/main.rs:292-397 | While the latest tree has no directories the condition on nested files holds by itself |
| SyncRounds.NothingOverwrittenAgain | crates/nsmt-client/src/fs.rs:161-182 | Once shares and trees agree where they overlap, every run without edits, whatever is pushed, asked and pulled, keeps it so and writes over no file with other content |
| SyncRounds.FirstRoundAgrees | crates/nsmt-client/src/main.rs:362-397 | A round that starts with all clients in step with archived trees, in which each lands a reply with every blob obtained, nobody edits, copies get unused names, and pushes, copies included, come from clients that have landed or repeat the latest tree: then all shares, the latest tree and the replies in flight agree, and have what was published at first |
| SyncRounds.CalmRoundCovers | crates/nsmt-client/src/main.rs:370-397 | If only the latest tree is pushed during such a round, it stays the latest and every share covers it |
| SyncRounds.SecondRoundAllEqual | crates/nsmt-client/src/main.rs:292-397 | After such a first round and any run without edits, once all clients are in step with archived trees and no reply is in flight, a second such round overwrites nothing and makes all shares equal, copies included, with empty next diffs |
| SyncRounds.PushesSettle | crates/nsmt-client/src/main.rs:362-369 | When every watcher has fired, all clients are in step with archived trees and no file has changed |
| SyncRounds.TwoRoundsSuffice | crates/nsmt-client/src/main.rs:362-397 | Two such rounds, with the watchers firing in the first or after it, bring every client to one share, that of the client that pushed last, which has all that was published at first |
| SyncPeace.PeaceIff | crates/nsmt-client/src/main.rs:292-397 | With no reply in flight, all clients in step and all files uploadable: no reply in any run without edits would write over a file with other content iff shares and latest tree agree wherever two overlap |
| SyncPeace.StalePushWritesAgain | crates/nsmt-client/src/main.rs:362-397 | In any state: if a client pushes its old version of a nested file before it polls, its poll brings nothing, and a client that has just written over that file will write over it again |
| SyncStale.StaleHappens | crates/nsmt-client/src/main.rs:362-397 | A run from an empty server exists in which, without edits, all clients land a reply and a nested file is written over again after that |
| SyncRuns.MergedCovers | crates/nsmt-client/src/main.rs:292-309 | Whatever others do, the merged share has everything that was published when the client asked |
| SyncRuns.StartPushKeepsIff | crates/nsmt-client/src/main.rs:292-315 | A startup's push, with anything between its round trips, keeps what is published iff nothing published at the ask was rebound and everything new is in the merged share |
| SyncRuns.StartUpGrows | crates/nsmt-client/src/main.rs:292-315 | A startup during which nothing new is published only adds to what the latest tree binds |
| SyncRuns.StartupsNeverClobber | crates/nsmt-client/src/main.rs:292-315 | Over every run without watch pushes in which no startup's push is overtaken, from any shares, no published path is dropped or rebound |
| SyncRuns.PushKeepsIff | crates/nsmt-client/src/main.rs:432-448 | A push keeps what others published iff the pusher's share has it |
| SyncRuns.PollLosesNothing | crates/nsmt-client/src/main.rs:370-397 | In every reachable state a poll by a client that has not edited meanwhile loses none of its bytes |
| SyncRuns.StartUpLosesNothing | crates/nsmt-client/src/main.rs:292-308 | Nor does the pull of a startup, whatever others do after its question |
| SyncExample.FileArrives | crates/nsmt-client/src/main.rs:362-397 | A run in which one client publishes a file and another, without files, polls and holds it |
| SyncExample.WatchPushClobbers | crates/nsmt-client/src/main.rs:362-369 | In any state, a push by a client whose share lacks a just published file drops it |
| SyncExample.OverlappingStartupsClobber | crates/nsmt-client/src/main.rs:292-315 | On a fresh server, of two overlapping startups the later push drops the file that the earlier one published |
| SyncExample.NestedOverwriteShows | crates/nsmt-client/src/fs.rs:161-182 | A run in which a poll overwrites a nested file and its share is not the latest tree |
| SyncExample.EditIsLost | crates/nsmt-client/src/main.rs:387-391 | A run in which a poll loses an edited file: it is neither in the share nor in the store |
| SyncSetting.ArrivalHappens | crates/nsmt-client/src/main.rs:362-397 | A run from an empty server exists after which a client without files has the other's |
| SyncSetting.NestedOverwriteHappens | crates/nsmt-client/src/fs.rs:161-182 | A run from an empty server exists that overwrites a nested file and ends with a share unlike the latest tree |
| SyncSetting.EditLossHappens | crates/nsmt-client/src/main.rs:387-391 | A run from an empty server exists in which an edit is neither in the share nor in the store at the end |
| SyncSetting.OverlapHappens | crates/nsmt-client/src/main.rs:292-315 | Two overlapping startups on an empty server exist that publish a file and drop it |
| SyncSetting.WatchClobberHappens | crates/nsmt-client/src/main.rs:362-369 | Two watch pushes on an empty server exist, the second of which drops what the first published |
| SyncSetting.StartsExist | crates/nsmt-client/src/main.rs:283-291 | The systems from which these runs start exist wherever their shares can be hashed |
| SyncSetting.SettingExists | crates/nsmt-client/src/fs.rs:161-182 | A hash, a nested path and three contents exist that meet all conditions of these runs |
| E2E.NonceInjective | crates/nsmt-core/src/e2e.rs:114-119 | No two chunks of a file share a nonce |
| E2E.NonceSpelled | crates/nsmt-core/src/e2e.rs:114-119 | The nonce is the text NSMT and the chunk index, most significant byte first |
| E2E.DecryptIff | crates/nsmt-core/src/e2e.rs:91-105 | A chunk opens iff the receiver lists the sender's newest key, and then to what was sealed |
| E2E.MovedNeverOpens | crates/nsmt-core/src/e2e.rs:91-105 | A chunk sealed for one place in a file opens at no other place |
| E2E.RotationByMasters | crates/nsmt-core/src/e2e.rs:33-84 | With the sender's newest master key on the receiver's list, every chunk opens |
| E2E.OpensAcrossIff | crates/nsmt-core/src/e2e.rs:33-84 | For any two non-empty domains, what one sender seals opens at a receiver iff some master key of the receiver behind its domain is the same string as the sender's newest master key behind its own |
| E2E.TenantsApart | crates/nsmt-core/src/e2e.rs:33-84 | As master keys have one length, nothing sealed for one tenant opens for another |
| E2E.LongerMasterMeets | crates/nsmt-core/src/e2e.rs:33-42 | With master keys of different lengths it could: domain and key are hashed without a mark between them |
| Upload.ChunksApart | crates/nsmt-server/src/session.rs:357-384 | Different chunks are written to ranges that do not overlap |
| Upload.HandleKeepsInv | crates/nsmt-server/src/session.rs:357-384 | A chunk in any order, duplicate or out of range: the count equals the set flags and every received range is right |
| Upload.CompleteIsOriginal | crates/nsmt-server/src/session.rs:125-143 | When the count reaches the total, a temporary file that only this session writes is the original |
| Upload.DeliveryReassembles | crates/nsmt-server/src/session.rs:125-143 | For one session, while no other of its tenant uploads the same blob: in every delivery order the upload completes exactly when every chunk has come, with the original bytes unless the store already has an object of that id |
| Upload.SentIsHonest | crates/nsmt-client/src/fs.rs:231-270 | A sent chunk opens, at a server that lists the key, to its slice of the file under its own index |
| Upload.EmptyNeverStored | crates/nsmt-client/src/fs.rs:231-280 | An empty file is never stored, and a stray chunk ends its session |
| Upload.PendingUpload.HandleChunk | crates/nsmt-server/src/session.rs:357-384 | The seek-and-write method does to the object what `Handle` says, and fails exactly on a payload of a missing chunk that no key opens, changing nothing then |
| Upload.HandleMeans | crates/nsmt-server/src/session.rs:363-383 | Any payload whatever: an error iff it is of a missing chunk and no key opens it; a flag is set iff a key opened that chunk, and then its bytes are at their place and the rest of the file is as it was |
| Upload.StoredMeansOpened | crates/nsmt-server/src/session.rs:125-143 | Whatever arrives, an upload completes only when every chunk that was missing has been opened by a key, and the store changes with nothing else |
| Upload.SessionLoop.ReceiveChunk | crates/nsmt-server/src/session.rs:125-143 | The chunk arm stores a complete upload once, forgets it and acknowledges it |
| Upload.SessionLoop.ReceiveAll | crates/nsmt-server/src/session.rs:125-143 | The receive loop does to the session what delivering all chunks in turn does |
| Upload.SessionLoop.ReceiveFile | crates/nsmt-server/src/session.rs:253-275 | A whole upload, its start and its chunks, does to the session what the start and the deliveries do |
| Upload.MissingInOrder | crates/nsmt-client/src/fs.rs:250-253 | The chunks to send are those the server lacks, each once, in ascending order |
| Upload.SendChunks | crates/nsmt-client/src/fs.rs:231-270 | The send loop produces exactly the missing chunks in that order, each protected under its index |
| Upload.SentReassembles | crates/nsmt-server/src/session.rs:125-143 | What the send loop produces, delivered to one session that has nothing of the file, completes its upload with the original bytes |
| Upload.SentStoredIff | crates/nsmt-server/src/session.rs:371-374 | With keys at both ends, what the send loop produces of a non-empty file is stored iff the server lists the client's newest key; otherwise the session ends with an error |
| Upload.PushFile | crates/nsmt-client/src/fs.rs:231-280 | Sending a file to a session stores it iff the server lists the client's newest key, and leaves the store as it was otherwise |
| SharedFile.FileIsOriginalIff | crates/nsmt-server/src/session.rs:357-384 | A temporary file after any writes and removals is the original iff every chunk was written since the last removal, all-zero chunks before the last one excused |
| SharedUpload.RunFollows | crates/nsmt-server/src/fs.rs:75-77 | Over every run of all sessions of a tenant a temporary file is what the writes and removals of its blob make it |
| SharedUpload.StoredRightIffInRun | crates/nsmt-server/src/session.rs:125-143 | An upload that completes in any run and is written, because the store lacks the object or overwrites it, stores the original iff all chunks were written since the file was last removed by any session |
| SharedUpload.UndisturbedStoresRight | crates/nsmt-server/src/session.rs:253-275 | In every run in which no action removes a file that another session is writing, whatever is stored is the original |
| SharedUpload.CompletesWithChunks | crates/nsmt-server/src/session.rs:125-143 | Whatever other sessions do, an upload completes exactly when all its chunks have come |
| SharedUpload.SecondUploadSpoils | crates/nsmt-server/src/session.rs:253-275 | A second session's start between two chunks makes the first one store zeros for the chunk before, on an overwriting back end also in place of a right object; that is the file iff the chunk was zeros |
| SharedUpload.UploadAmongOthers | crates/nsmt-server/src/session.rs:357-384 | A file whose chunks all come ends in the store, in the midst of any sessions that disturb no upload of its blob |
| OpenedUploads.StoresOnlyOpened | crates/nsmt-server/src/session.rs:125-143 | Over every run of all sessions, whatever they send: what is stored came from an upload every chunk of which a key opened since its start |
| OpenedUploads.UnopenedEnds | crates/nsmt-server/src/session.rs:371-374 | A payload of a missing chunk that no key opens ends its session's upload; files, store, removals to come and other sessions stay |
| OpenedUploads.UnlistedNeverStores | crates/nsmt-server/src/session.rs:371-374 | A client whose newest key the server does not list stores nothing in any run |
| OpenedUploads.MovedStaysShut | crates/nsmt-server/src/session.rs:366-374 | A sealed chunk with another chunk's index in front is opened by no key |
| OpenedUploads.EmptyUploadEnds | crates/nsmt-server/src/session.rs:125-143 | An upload of no chunks ends with the first payload: without a temporary file nothing is stored, with another session's file under its id that file is |
| SharedUpload.TenantUploads.FilePut | crates/nsmt-server/src/session.rs:262-271 | The start of an upload removes the tenant's temporary file of the blob and forgets the session's earlier upload |
| SharedUpload.TenantUploads.FileChunk | crates/nsmt-server/src/session.rs:357-384 | A chunk is written into the shared file, and with the session's last one the file is read back and stored, as the back end does it |
| SharedUpload.TenantUploads.RemoveTemp | crates/nsmt-server/src/session.rs:133-133 | After storing, the temporary file is removed, whoever has written to it meanwhile |
| SharedUpload.TenantUploads.Replay | crates/nsmt-server/src/session.rs:125-143 | Any interleaving of the sessions' actions leaves the state that the runs above are about |
| Download.NextSlice | crates/nsmt-server/src/session.rs:196-220 | A slice shorter than the chunk size is the last one, and slices join to the object |
| Download.GetObject | crates/nsmt-client/src/fs.rs:343-383 | From an idle channel, any object length and any interleaved broadcasts: the whole object after floor(len / C) + 1 requests and no chunk left in flight |
| Download.GetAll | crates/nsmt-client/src/fs.rs:343-383 | Any sequence of downloads on one channel is correct, from the server or from a peer |
| Journey.Transfer | crates/nsmt-client/src/fs.rs:191-383 | Upload in the midst of sessions that do not disturb it, store and download with rotated keys is the identity on every non-empty file, whatever content-addressed objects the store holds before |
| Journey.ChunkFitsFrame | crates/nsmt-core/src/frame.rs:9-12 | With chunks of 1 MiB and at most 16 bytes of sealing every chunk and its index fit one frame |
| FrameCodec.FromRawOfRaw | crates/nsmt-core/src/frame.rs:17-87 | Every frame type is read back from its own code |
| FrameCodec.FromRawSound | crates/nsmt-core/src/frame.rs:52-87 | An accepted code is the code of the type it is read as |
| FrameCodec.EncodeMeans | crates/nsmt-core/src/frame.rs:149-163 | A frame is refused iff its payload is longer than 16777216 bytes; otherwise its bytes are Y, 1, flags, type, stream id and length least significant byte first, and the payload |
| FrameCodec.DecodeRefuses | crates/nsmt-core/src/frame.rs:165-194 | When and with which error a buffer is refused, and when more is asked for: first byte, version, type and length in this order |
| FrameCodec.DecodeEncoded | crates/nsmt-core/src/frame.rs:149-194 | Decoding an encoded frame gives it back, whatever follows |
| FrameCodec.DecodedWasEncoded | crates/nsmt-core/src/frame.rs:165-194 | When a frame is decoded, the consumed prefix is its encoding |
| FrameCodec.CutNeedsMore | crates/nsmt-core/src/frame.rs:165-194 | A cut frame never decodes to anything; it asks for more bytes |
| FrameStream.RecvAgreesWithDecode | crates/nsmt-core/src/wire.rs:29-70 | Receiving agrees with the codec on frames, on bytes that are missing, and on errors, of which it reports an unknown type last |
| FrameStream.WholeStream | crates/nsmt-core/src/wire.rs:21-70 | Repeated receives on the bytes of any frames yield exactly those frames and then a clean end |
| FrameStream.CutStream | crates/nsmt-core/src/wire.rs:29-70 | A stream cut anywhere yields the whole frames before the cut, then an error inside a frame or a clean end between frames |
| FrameStream.Source.Fill | crates/nsmt-core/src/wire.rs:29-70 | However the bytes are split into reads, the buffer is filled with the next bytes in order or the stream has ended |
| FrameStream.Stream.Send | crates/nsmt-core/src/wire.rs:21-26 | A frame that fits is written whole, one that does not is refused for its length and nothing is written |
| FrameStream.Stream.Recv | crates/nsmt-core/src/wire.rs:29-70 | The receive method with its buffers does what `RecvOn` says, independently of fragmentation |
| FrameStream.Stream.Drain | crates/nsmt-core/src/wire.rs:29-70 | Receiving until the stream stops gives the frames and the ending that `DrainOn` says |
| LeaseLocks.LockRegistry.TryAcquire | crates/nsmt-server/src/fs.rs:152-169 | A lease is granted unless another holder's is alive; a refusal changes nothing |
| LeaseLocks.LockRegistry.TryRenew | crates/nsmt-server/src/fs.rs:171-180 | The holder on record extends its lease, also after expiry; nobody else does |
| LeaseLocks.LockRegistry.TryRelease | crates/nsmt-server/src/fs.rs:182-191 | The holder on record, and nobody else, removes the entry |
| LeaseLocks.LockRegistry.CleanupTick | crates/nsmt-server/src/fs.rs:205-213 | A tick drops exactly the entries expired at the clock reading taken before the lock |
| LeaseLocks.LockRegistry.Replay | crates/nsmt-server/src/fs.rs:152-213 | Any timed run of requests and ticks on the registry leaves and answers what the runs below are about |
| LeaseLocks.RunRecorded | crates/nsmt-server/src/fs.rs:152-213 | Over every timed run, a lease its requester still believes in is the one on record |
| LeaseLocks.RunBelieved | crates/nsmt-server/src/fs.rs:152-213 | Conversely, over every timed run a lease on record that is alive is one its holder believes in, with the same expiry |
| LeaseLocks.DeniedIffHeld | crates/nsmt-server/src/fs.rs:152-169 | After any timed run an acquire is denied in the name of h iff h is another requester who holds the path at that moment; otherwise it is granted for its whole time to live |
| LeaseLocks.ReleaseFrees | crates/nsmt-server/src/session.rs:294-298 | After any timed run, when the holder of a path releases it the next acquire by anyone is granted |
| LeaseLocks.GrantThenAcquire | crates/nsmt-server/src/fs.rs:152-169 | The acquire after a grant is denied to others until the lease ends, granted from then on, and granted to the holder at any time |
| LeaseLocks.NeverTwoHolders | crates/nsmt-server/src/fs.rs:152-213 | Two requesters never both hold an unexpired, unreleased grant on one path |
| LeaseLocks.CleanerInvisible | crates/nsmt-server/src/fs.rs:205-213 | With renewals in time, cleanups interleaved anywhere change no answer to any acquire |
| LeaseLocks.LateRenewalShows | crates/nsmt-server/src/fs.rs:171-180 | After any late renewal the next acquire tells whether the cleaner came by |
| LeaseLocks.CleanerInvisibleIff | crates/nsmt-server/src/fs.rs:152-213 | Cleanups put anywhere into any beginning of a run, followed by any acquires, change no answer iff every renewal comes in time |
| LeaseWire.RivalHolds | crates/nsmt-server/src/session.rs:288-293 | After a renewal that the registry refuses, of which the session tells its requester that it was granted, another requester's acquire is granted and both believe they hold the path |
| LeaseWire.ExclusiveIff | crates/nsmt-server/src/session.rs:276-298 | As requesters are told, leases exclude each other over every beginning of a run and whatever acquires follow iff the registry refuses no renewal in it |
| Calendar.EraIsFloor | crates/nsmt-client/src/okf.rs:92-103 | The truncating division with its correction is a floor, on negative day numbers too |
| Calendar.YearOfEraUnique | crates/nsmt-client/src/okf.rs:92-103 | The year-of-era formula finds the one year whose span holds the day |
| Calendar.CivilSuccessor | crates/nsmt-client/src/okf.rs:92-103 | Day 0 is 1970-01-01 and day z + 1 is the calendar day after day z, for every integer z (RFC 3339 section 5.7 and Appendix C) |
| Calendar.CountOfCivil | crates/nsmt-client/src/okf.rs:92-103 | The date of day z is a valid date, and counting its days gives z back |
| Calendar.CivilOfCount | crates/nsmt-client/src/okf.rs:92-103 | Every valid date is the date of its day count |
| Calendar.CivilMonotone | crates/nsmt-client/src/okf.rs:92-103 | Later days have later dates |
| Timestamps.PadIsDigits | crates/nsmt-client/src/okf.rs:80-90 | A number that fits its zero-padded field is written with exactly the field's digits |
| Timestamps.IsoWellFormed | crates/nsmt-client/src/okf.rs:439-457 | Up to year 9999 a timestamp has 20 characters and passes the format check (RFC 3339 section 5.6) |
| Timestamps.IsoCheckMeans | crates/nsmt-client/src/okf.rs:439-457 | The check accepts a text iff its first 19 characters match 0000-00-00T00:00:00 with any digits and the next is Z or a sign |
| Timestamps.IsoOrdered | crates/nsmt-client/src/okf.rs:80-90 | Up to year 9999 text order is time order (RFC 3339 section 5.1) |
| Timestamps.OrderEnds | crates/nsmt-client/src/okf.rs:80-90 | The first timestamp of the year 10000 comes before the last one of 9999 as text |
| Timestamps.IsoReadsBack | crates/nsmt-client/src/okf.rs:80-90 | Up to the year 9999 the fields of a timestamp, its date's days counted, give back the second it was made from |
| Archive.TarDir | crates/nsmt-server/src/admin.rs:370-388 | The packing loop writes the records of all files in order and counts them |
| Archive.RecordSpelled | crates/nsmt-server/src/admin.rs:370-388 | A record is two lengths of four bytes, least significant first, then the name and the data |
| Archive.CursorFindsRecords | crates/nsmt-server/src/admin.rs:391-415 | The cursor finds, from any offset, the whole records of the rest |
| Archive.UntarDir | crates/nsmt-server/src/admin.rs:391-415 | On arbitrary bytes the loop ends in bounds and restores exactly the whole records that have a name, and counts those |
| Archive.CutArchive | crates/nsmt-server/src/admin.rs:391-415 | Any truncation restores exactly the records that are whole before the cut |
| Archive.SurvivesIffShort | crates/nsmt-server/src/admin.rs:370-415 | An archive of any files gives them back iff all their lengths are below 2^32 |
| Archive.RoundTrip | crates/nsmt-server/src/admin.rs:370-415 | Unpacking what was packed restores exactly the files with a name, and their count |
| Archive.RestoreWrites | crates/nsmt-server/src/admin.rs:391-415 | Any records into any directory: of those written to one path the last one stays |
| Archive.RestoredNames | crates/nsmt-server/src/admin.rs:403-408 | Any records: every name written is a string, the decoded name of some record |
| OkfEdit.EditLines | crates/nsmt-client/src/okf.rs:817-828 | The loop over changes rewrites or appends one line per change, in order |
| OkfEdit.RewriteMatches | crates/nsmt-client/src/okf.rs:820-824 | A rewritten line still belongs to its key and to no other |
| OkfEdit.EditsAreSimultaneous | crates/nsmt-client/src/okf.rs:817-828 | The loop is the simultaneous substitution of each key's first line, missing keys appended in order, every other line untouched |
| OkfEdit.EditTwice | crates/nsmt-client/src/okf.rs:817-828 | With the same values the lines no longer change |
| OkfEdit.ReadBackIffNoComment | crates/nsmt-client/src/okf.rs:823-824 | Read as a plain scalar, the value read back is the value written iff the old line had no '#' |
| OkfEdit.BomReadNotEdited | crates/nsmt-client/src/okf.rs:754-763 | A byte order mark does not keep a document from being read, but it does keep it from being edited |
| OkfRoundTrip.FenceFound | crates/nsmt-client/src/okf.rs:39-47 | The closing fence is found right after the lines, whatever the lines are, if none starts with a fence |
| OkfRoundTrip.OutputReadsBack | crates/nsmt-client/src/okf.rs:830-830 | Reading the written document gives the same body and the edited lines, less a blank last one |
| OkfRoundTrip.EditRoundTrip | crates/nsmt-client/src/okf.rs:754-834 | Re-reading an edited document gives the same body and the simultaneous substitution of its lines, whole iff no blank last line is lost |
| OkfRoundTrip.EditAgain | crates/nsmt-client/src/okf.rs:754-834 | With a fixed timestamp a second edit changes nothing, exactly when no blank line is lost |
| OkfRoundTrip.BlankLineIsLost | crates/nsmt-client/src/okf.rs:754-834 | A document exists, for any values, that loses a blank line at an edit and again at the next |
| Text.LinesOfJoin | crates/nsmt-client/src/okf.rs:762-765 | Splitting joined lines gives them back, except that a blank last line is lost |
| Text.LinesOfText | crates/nsmt-client/src/okf.rs:765-765 | A text with either kind of line end in any mixture, with or without one at its end, has its lines |
| OkfLog.AppendTo | crates/nsmt-client/src/okf.rs:233-254 | The insertion into the text buffer is `Appended` |
| OkfLog.LogFile.Append | crates/nsmt-client/src/okf.rs:233-254 | Appending starts a missing file with its header and replaces the file's text by `Appended` |
| OkfLog.FirstEntry | crates/nsmt-client/src/okf.rs:233-254 | Character by character what a new log looks like after its first entry |
| OkfLog.AddIsAppend | crates/nsmt-client/src/okf.rs:233-254 | Adding an entry extends its date's entries, changes no other's, and puts a new date last |
| OkfLog.SearchGroups | crates/nsmt-client/src/okf.rs:242-246 | The marker is found at the date's heading, or inside an earlier entry that mimics it |
| OkfLog.InsertPoint | crates/nsmt-client/src/okf.rs:243-248 | The entry goes to the end of its date's group iff no entry misleads the search |
| OkfLog.AppendRefines | crates/nsmt-client/src/okf.rs:233-254 | Appending to the rendered log is rendering the log with the entry added, iff no earlier entry mimics the heading and none of the group breaks it |
| OkfLog.MimicMisplaces | crates/nsmt-client/src/okf.rs:242-248 | A title that ends in another day's heading takes that day's entry |
| OkfLog.RunRefines | crates/nsmt-client/src/okf.rs:233-254 | Over every run of one-line entries that do not end like a heading, the file is the rendered log |
| OkfLog.NothingLost | crates/nsmt-client/src/okf.rs:233-254 | Each day has one heading and, under it, exactly that day's entries in order |
| OkfLog.NewestLast | crates/nsmt-client/src/okf.rs:232-251 | If the days of the appends never go back, headings go from the oldest day to the newest |
| OkfLog.ClockedLog | crates/nsmt-client/src/okf.rs:80-254 | Over every run of clock readings and tame entries: the file is the rendered log, no entry is lost or moved, and with a clock that does not run back the newest day comes last |
| OkfLog.DaysOrdered | crates/nsmt-client/src/okf.rs:80-90 | A later clock reading never gives an earlier day |
| ObjectStore.SharedBackend.Call | crates/nsmt-fs/src/lib.rs:129-149 | One call on the shared back end; what calls answer over a run is `OwnReads` |
| ObjectStore.LocalStore.Call | crates/nsmt-fs/src/lib.rs:40-58 | One call on the local store; what calls answer over a run is `KeepReads` |
| ObjectStore.PrefixedStore.Call | crates/nsmt-fs/src/lib.rs:161-187 | A prefixed call is the call on the back end under the tenant's key; what a tenant's calls answer over a run is `TenantReads` |
| ObjectStore.SharedBackend.Replay | crates/nsmt-fs/src/lib.rs:129-149 | A run of calls on a new shared back end is answered as `OwnReads` says |
| ObjectStore.LocalStore.Replay | crates/nsmt-fs/src/lib.rs:40-58 | A run of calls on a new local store is answered as `KeepReads` says |
| ObjectStore.OwnReads | crates/nsmt-fs/src/lib.rs:129-149 | In any run on a shared back end a get finds b iff some put under the key's name put b and nothing was put or deleted under that name since; exists agrees, and puts and deletes always succeed |
| ObjectStore.KeepReads | crates/nsmt-fs/src/lib.rs:40-58 | In any run on the local store a get finds b iff the first put of the key since its last deletion put b; exists agrees, and a delete fails iff nothing is there |
| ObjectStore.TenantReads | crates/nsmt-fs/src/lib.rs:161-187 | Whatever tenants apart from it do in between, a tenant's reads find what its own calls last put |
| ObjectStore.PrefixedName | crates/nsmt-fs/src/lib.rs:168-170 | Every key of a tenant is filed under the tenant's root followed by the key's own pieces |
| ObjectStore.PlainDomainsApart | crates/nsmt-fs/src/lib.rs:221-228 | Different non-empty domains without slashes have roots that do not extend each other |
| ObjectStore.Isolated | crates/nsmt-fs/src/lib.rs:174-187 | Over every interleaving with tenants apart from it, a tenant gets the answers of a store of its own |
| ObjectStore.IsolatedIffApart | crates/nsmt-fs/src/lib.rs:221-228 | Two tenants are isolated in every run iff neither's root extends the other's |
| ObjectStore.SlashInDomain | crates/nsmt-fs/src/lib.rs:221-228 | A domain that continues another's with a slash and `objects` breaks the isolation |
| ObjectStore.KeepingIsOverwriting | crates/nsmt-fs/src/lib.rs:40-58 | Under content hashes put-if-absent and overwriting hold the same objects after every run |
| ObjectStore.SameAnswers | crates/nsmt-fs/src/lib.rs:129-149 | They then answer every call alike, except the deletion of what is not there |

## Left out

- SyncModel.TreePaths: names that are not UTF-8 cannot occur; `walk` decodes them lossily (`nsmt-client/src/fs.rs:89`), so in the code two of them can give one path twice.
- Archive.UntarDir: every name but the empty one can be written to; names that lead to another directory or to one that exists (`.`, `..`, an absolute path, a file's name continued) are not told apart.
- Journey.Transfer: asks for a non-empty file, because an empty one is never stored (`EmptyNeverStored`), and that no other session removes the temporary file while it is written; `SharedUpload.StoredRightIffInRun` has no such condition.
- Upload.SentReassembles: asks for fewer than 2^32 chunks, the range of the index on the wire.
- Download.GetObject: asks for objects below 2^32 chunks, the range of the index on the wire.
- LeaseLocks.LockRegistry.TryRenew: this is the registry's own answer; what the session makes of it is in `LeaseWire`. That a session announces a path as unlocked after every release, refused ones included, is not part of this model.
- OkfLog.RunRefines: asks for entries of one line that do not end in `## ` and ten characters; `AppendRefines` has no restriction on entries.
- OkfRoundTrip.EditRoundTrip: asks for front matter opened by a plain `---` line and free of carriage returns, values free of newlines and `#`, and distinct keys as the command produces them.
- Lock denial and quota rejection during a push, after which the tree is sent without the object: runs are those where every entry is accepted.
- Two trees saved at once, or a share changed while it is walked, pulled into or uploaded: those are single steps here. A startup's tree is built with its push, not with its pull.
- The view of a share through symbolic links into the object cache: a file is its bytes.
- A path that is a file in one share and a directory in another, and file names with backslashes.
- OkfEdit.ReadBackIffNoComment: reads a value back as a plain YAML scalar, which ends where a `#` follows a space; quoted values and the rest of YAML are not part of this model.
- Errors of the file system, of JSON and of YAML; messages are values, front matter is lines.
- QUIC, TLS, the directory watcher, peer authentication, hole punching and the choice of a peer: a peer is a map of objects.
- The SHA-256, Ed25519, ChaCha20-Poly1305 and argon2 algorithms themselves.
- Overflow of 64-bit times and the wrap-around of lease expiry: times are unbounded integers.
- The memory gateway, the user database, quotas, plans, the online registry and the supervisor: single-branch updates and foreign calls.
- The conflict command line, the web pages, link extraction, search, listing and index generation.
