# Escapement, modelled in Dafny

Escapement keeps a remote FTP directory in step with a local directory. It
has two modes:

- **Synchronise** (the default). A pass connects with SSL and makes sure
  the remote directory exists. It then loads two maps from path to
  last-modified time: the remote map comes from the JSON cache file, or from
  a live listing when the cache leaves it empty; the local map comes from a
  scan of the local directory.
  - Upload phase: the pass uploads every local file whose remote
    counterpart is missing or strictly older.
  - Delete phase: the pass deletes every remote file that has no local
    counterpart.
  - It warns when the maps differ in size, disconnects and saves both maps
    to the cache.
  - With a non-zero poll time the pass repeats.
- **Pull** (`pullFromServer`). The run connects without SSL and pulls every
  remote file. It then writes each pulled file's local timestamp back into
  the remote map at the translated path, so that a later synchronise does
  not upload the files again, and saves the cache.

Paths move between the two roots by string-length arithmetic: local to
remote, and remote to local. An exception ends the process with failure
status. Three exceptions are raised by the code itself:

- a connection reply other than 230 ("User logged in", section 4.2 of RFC 959);
- a remote directory that is missing or cannot be created;
- a path too short for the root length being stripped (`substr` out of range).

The project has four modules:

- `Types` (`types.dfy`): timestamps, the path-to-time map `FileInfoMap`, the
  run options, and `Assign`. `Assign` is the in-order assignment of a list
  of `{Filename, Modified}` pairs into a map; both the cache loader and the
  local scan perform it.
- `FileCache` (`file_cache.dfy`): the cache document as a datatype. It
  covers loading the options override, loading the remote map, saving, and
  both round trips.
- `Files` (`files.dfy`): the two path translations and their round trips,
  the remote time listing, and the assembly of both maps at the start of a
  pass.
- `Escapement` (`escapement.dfy`): the two selections, one synchronise pass
  as a trace of collaborator calls, the poll loop, pull mode and the mode
  dispatch.

The FTP server and the disk are given to each pass as an input record:
`Session` for a synchronise pass and `PullSession` for a pull. Each method
returns the calls it makes, as a sequence of `Event`s, in order. Maps the
source iterates in unspecified `unordered_map` order are walked by `:|`
choice. So every list the model builds is specified by its members and
distinctness, and never by its order.

The model keeps these behaviours of the code as written:

- Neither list is sorted.
- The translations do not check that a path starts with the root; they
  strip by length.
- A path too short to translate aborts the whole run. It is not skipped.
- The local map is not rebuilt each pass: it only grows.
- A failed connection ends the process; it is not retried at the next pass.
- No pass disconnects on an error path.
- There is no refresh-cache mode.
- SSL is fixed: on when synchronising, off when pulling.

`filesToProcess` is declared outside the poll loop and cleared only before
the delete phase. Taking `pushFiles` and `deleteFiles` to leave that list
unchanged (their bodies are not part of this model), every pass after the first starts its upload list with
the previous pass's delete list, which holds remote paths.
`Escapement.SynchroniseFiles` keeps this behaviour.
`Escapement.LeftoverDeletionsArePushed` shows that those paths are handed to
pushFiles even when the two maps agree. `Escapement.InSyncPassIsQuiet`
shows that a pass starting from an empty list pushes and deletes nothing
over agreeing maps.

## Model

| member | source | states |
|---|---|---|
| Types.Assign | Escapement_FileCache.cpp:121-123 | Assigning a list of pairs in order leaves exactly the old keys plus every listed name |
| Types.AssignLastWins | Escapement_FileCache.cpp:121-123 | An entry with no later entry of the same name decides that name's value: a later duplicate wins |
| Types.AssignUntouched | Escapement_FileCache.cpp:121-123 | A key that no entry names keeps its value |
| Types.AssignListing | Escapement_FileCache.cpp:121-123 | Assigning a list that lists a map exactly overlays that map on the target |
| FileCache.LoadEscapementOptions | Escapement_FileCache.cpp:72-98 | The options change only when override is set, the file opens and it has an "EscapementOptions" key. In that case the six connection fields become the saved ones, and the cache name, poll time, mode and override flag never change |
| FileCache.LoadCachedFiles | Escapement_FileCache.cpp:103-130 | The remote map is unchanged when the cache name is empty, the file does not open or "RemoteFiles" is missing. Otherwise it is the in-order assignment of the array |
| FileCache.ToFileArray | Escapement_FileCache.cpp:153-158 | The array has one element per map entry, each carrying that entry's name and time, with no name twice |
| FileCache.SaveCachedFiles | Escapement_FileCache.cpp:136-180 | With an empty cache name nothing is written. Otherwise only that file changes, and it holds the six connection fields and exact listings of both maps |
| FileCache.SaveLoadRoundTrip | Escapement_FileCache.cpp:118-160 | Loading a saved document overlays the saved remote map on the target map; into an empty map it reproduces it |
| FileCache.SaveLoadOptionsRoundTrip | Escapement_FileCache.cpp:84-151 | Saving, then loading with override set, restores the six saved connection fields and changes no other option |
| FileCache.SaveLoadRemoteRoundTrip | Escapement_FileCache.cpp:118-160 | Saving, then loading into an empty remote map, gives back the saved remote map |
| Files.LocalFileToRemote | Escapement_Files.cpp:90-94 | Defined exactly when the path is at least as long as the local root plus a separator the root lacks; the result starts with the remote root and a separator |
| Files.RemoteFileToLocal | Escapement_Files.cpp:100-104 | Defined exactly when the path is at least as long as the remote root, plus one when the local root ends in the separator; the result starts with the local root |
| Files.LocalRoundTrip | Escapement_Files.cpp:90-104 | A path under the local root maps to the remote root plus the same suffix, and that remote path maps back |
| Files.RoundTrips | Escapement_Files.cpp:90-104 | Local-to-remote then back is the identity under the local root; remote-to-local then back is the identity under the remote root plus separator |
| Files.LocalMappingIgnoresPrefix | Escapement_Files.cpp:90-94 | Only the root's length is used: two paths with the same suffix past that length translate alike |
| Files.LocalMappingInjectiveUnderRoot | Escapement_Files.cpp:90-94 | Two paths under the local root that translate alike are equal |
| Files.GetRemoteFileListDateTime | Escapement_Files.cpp:110-122 | The keys are exactly the listed names, each bound to the time fetched for it |
| Files.LoadFilesBeforeSynchronise | Escapement_Files.cpp:128-168 | The live remote listing is used exactly when the cache leaves the remote map empty. The local keys are the old keys plus every scanned path, and the local map is the in-order assignment of the scan |
| Files.LocalScanStamps | Escapement_Files.cpp:156-162 | A scanned path gets its last listing's stamp, the epoch when it is not a regular file, whatever the map held before the scan |
| Files.LocalScanKeeps | Escapement_Files.cpp:156-162 | A key already in the local map that the scan does not list keeps its stamp |
| Escapement.SelectUploads | Escapement.cpp:255-260 | Raises out-of-range exactly when some local key is too short. Otherwise the old list is kept in front, followed by exactly the local paths whose remote counterpart is missing or strictly older, each once |
| Escapement.SelectDeletions | Escapement.cpp:271-276 | Raises out-of-range exactly when some remote key is too short. Otherwise the list holds exactly the remote paths whose local counterpart is not a local key, each once |
| Escapement.InSyncSelectsNothing | Escapement.cpp:255-276 | The maps agree (each local file has a remote counterpart at least as new, each remote file a local counterpart) exactly when both translations succeed and both selections are empty |
| Escapement.OpenPass | Escapement.cpp:223-251 | A failed login returns that status after one SSL connect. A missing directory that cannot be made fails after the attempt to create it. Otherwise the working directory replaces the remote root, both maps are loaded, and the listing call happens only on an empty cache |
| Escapement.Reconcile | Escapement.cpp:253-289 | Applies both selections. pushFiles and deleteFiles are called only with non-empty lists, and the delete set is computed against the map after the push. The size warning compares the final maps; an out-of-range key stops the phases where it occurs |
| Escapement.FinishPass | Escapement.cpp:253-299 | After loading: both phases, then disconnect and save. The pass completes exactly when every local key and every key of the map left after the push translates; otherwise it raises out-of-range, leaves the cache untouched and records neither disconnect nor save |
| Escapement.SavePass | Escapement.cpp:291-299 | Disconnects and then saves exactly once; the cache holds the options and both final maps |
| Escapement.SynchronisePass | Escapement.cpp:221-299 | The first call is an SSL connect. The exceptions carry their causes, and no exception path saves or disconnects. A completed pass ends with exactly one disconnect and then one save, and its calls and resulting maps are exactly those of the selections. The local keys only grow. Once connected, the pass raises out-of-range exactly when a local key, or a key of the remote map left after the push, is too short to translate |
| Escapement.SynchroniseFiles | Escapement.cpp:200-307 | With poll time zero the body runs once. Each pass starts from the maps, options and list the previous one left, and each pass's fault is tied to its cause as for a single pass. The run fails exactly when its last pass raised, and earlier passes completed. No pull is ever made |
| Escapement.NextPass | Escapement.cpp:203-305 | A pass starts from the state the previous pass left, and its list starts with the previous pass's delete list |
| Escapement.LastPassEndsTrace | Escapement.cpp:221-305 | The run's calls start with the first pass's SSL connect and end with a save exactly when the last pass completed. A first login failure is the whole run |
| Escapement.LeftoverDeletionsArePushed | Escapement.cpp:255-271 | When maps that agree follow a pass that deleted files, the upload list is exactly the previous delete list, and pushFiles is called with it |
| Escapement.InSyncPassIsQuiet | Escapement.cpp:255-283 | Starting from an empty list over agreeing maps, neither pushFiles nor deleteFiles is called and the remote map stays as loaded |
| Escapement.InSyncPhasesAreQuiet | Escapement.cpp:255-283 | Starting from an empty list over agreeing maps, both lists are empty and the remote map stays as loaded |
| Escapement.PullList | Escapement.cpp:160-162 | The pull list holds exactly the remote keys, each once |
| Escapement.CopyLocalTimes | Escapement.cpp:185-187 | Raises out-of-range exactly when some pulled key is too short. Otherwise the remote keys grow by the translated paths, a translated path holds the time of a local key that translates to it, and every other remote entry is unchanged |
| Escapement.UnderRootTranslatesApart | Escapement_Files.cpp:90-94 | Local keys under the local root never translate to the same remote path |
| Escapement.CopiedTimesLeaveNothingToPush | Escapement.cpp:183-187 | When no two pulled keys collide, each pulled file's remote entry carries exactly its local time, so the upload selection over these maps is empty |
| Escapement.PullThenSyncPushesNothing | Escapement.cpp:183-191 | A later run that loads the saved cache gets back the pulled remote map. If its scan finds exactly the pulled files, it selects nothing to upload |
| Escapement.StartPull | Escapement.cpp:112-179 | The run connects without SSL, and a missing directory fails with no attempt to create it. Otherwise the pull list is every remote key, pullFiles is called only when the list is non-empty, and the size warning and the disconnect follow |
| Escapement.Pull | Escapement.cpp:112-194 | Server writes are never made. A completed pull saves exactly once after the disconnect, with the pulled times written back. An out-of-range key fails after the disconnect and before any save |
| Escapement.PullMode | Escapement.cpp:328-344 | A pull exits with failure on a failed login, on a missing directory, or when a pulled key is too short to translate; it exits with success exactly when it is ready and every pulled key translates |
| Escapement.SynchroniseMode | Escapement.cpp:328-344 | The exit status is the poll loop's outcome: success exactly when poll time is zero and the single pass completed, failure with the last pass's fault exactly when it raised |
| Escapement.Escapement | Escapement.cpp:313-357 | Pull mode runs exactly when pullFromServer is set: its first connect is without SSL, and it pushes and deletes nothing. Synchronise mode's first connect uses SSL and it never pulls. The exit status is the chosen mode's outcome: failure carrying the exception's cause, success exactly when the mode returned normally. Success ends with a save and failure does not |

## Left out

- Command-line and configuration-file parsing (`Escapement_CommandLine.cpp`) is not part of this model. The options are an input record. The caller of `loadEscapmentOptions` is outside the model.
- The FTP client and its helpers (`pushFiles`, `pullFiles`, `deleteFiles`, `makeRemotePath`, `listRemoteRecursive`, `getAllRemoteFiles`) are not part of this model. Their answers are fields of `Session` or `PullSession`, and the maps they leave behind are arbitrary. Exceptions they might raise themselves are not modelled.
- `setServerAndPort`, `setUserAndPassword`, `setBinaryTransfer` and `changeWorkingDirectory` are not recorded as events. The model observes only the working directory they lead to.
- The local scan, `is_regular_file`, `last_write_time` and `localtime` are an input list of `LocalEntry`. Timestamps are integers compared with `<`.
- Filesystem errors raised during the local scan (a `filesystem_error` from `is_regular_file` or `last_write_time`, which the dispatcher turns into a failure exit) are not modelled: the scan always succeeds.
- `pushFiles` and `deleteFiles` are taken to leave their list argument unchanged; the leftover upload list of later passes depends on this, because their bodies are not part of this model.
- Malformed JSON, and a cached "EscapementOptions" object that lacks one of its six keys, make the JSON library throw. The model's cache document is always well formed.
- Paths are sequences of characters. The source measures them in bytes, so for non-ASCII paths that do not start with the root, the stripped suffix and the out-of-range boundary can differ from the model's.
- `loadFilesBeforeSynchronise` and `saveFilesAfterSynchronise` (Escapement_Files.cpp:134, 179) call the cache functions with `(fileCache, remoteFiles, localFiles)`, an overload that is not part of this model. The model uses the run-context versions in Escapement_FileCache.cpp; that is why a save also writes the six option fields.
- FileCache.LoadCachedFiles: the conversion from timestamp to string and back is taken to be the identity.
- FileCache.SaveCachedFiles: a cache file that cannot be opened for writing is not modelled; the save always succeeds.
- Escapement.SynchroniseFiles: the loop never ends while the poll time is non-zero. The model runs one pass per given session and reports `StillPolling` when the sessions run out. The wait between passes is not modelled.
- Console and error output are not modelled, except the size-mismatch warning, which is an event.
- `convertFilePath` is not part of this model. A local key is translated with `LocalFileToRemote`, and a remote key with `RemoteFileToLocal`.
- The separator `kServerPathSep` is defined outside the modelled files and is taken to be `/`.
- An empty local root makes `back()` undefined, so every translating member requires a non-empty `localDirectory`.
- `exit` is modelled as the returned `ExitStatus`.
