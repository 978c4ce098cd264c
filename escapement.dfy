/** The reconciliation engine: one synchronise pass (upload new or newer local
    files, delete remote files with no local counterpart, save the cache), the
    poll loop around it, the pull-only mode and the choice between the two. */
module Escapement {
  import opened Types
  import opened Files
  import FileCache

  /** FTP reply "User logged in, proceed" (section 4.2 of RFC 959). */
  const LoggedIn: int := 230

  /** Exceptions that leave a mode and end the process with failure status. */
  datatype Fault =
    | ConnectFailed(status: int)
    | RemoteDirectoryMissing
    | RemoteDirectoryNotCreated
    | PathOutOfRange

  /** Calls made on the FTP and cache collaborators, in the order they happen. */
  datatype Event =
    | Connect(sslEnabled: bool, status: int)
    | MakeRemotePath(directory: string)
    | ListRemote(directory: string)
    | PushFiles(files: seq<string>)
    | PullFiles(files: seq<string>)
    | DeleteFiles(files: seq<string>)
    | OutOfSyncWarning
    | Disconnect
    | SaveCache

  /** What the server and the disk answer during one synchronise pass.
      `remoteAfterPush` and `remoteAfterDelete` are whatever pushFiles and
      deleteFiles leave in the remote map; nothing is assumed about them. */
  datatype Session = Session(
    connectStatus: int,
    remoteDirectoryExists: bool,
    remoteDirectoryCreated: bool,
    workingDirectory: string,
    listings: Listings,
    remoteAfterPush: FileInfoMap,
    remoteAfterDelete: FileInfoMap)

  /** The variables a synchronise run keeps from one pass to the next. */
  datatype RunState = RunState(
    optionData: EscapementOptions,
    remoteFiles: FileInfoMap,
    localFiles: FileInfoMap,
    cacheFiles: FileCache.CacheFiles)

  predicate Distinct(s: seq<string>)
  {
    forall i, j | 0 <= i < j < |s| :: s[i] != s[j]
  }

  // ---------------------------------------------------------------------------
  // The two selections

  /** Every local key translates to a remote path without an exception. */
  predicate LocalPathsMap(o: EscapementOptions, localFiles: FileInfoMap)
    requires o.localDirectory != ""
  {
    forall p | p in localFiles :: LocalFileToRemote(o, p).Some?
  }

  /** Every remote key translates to a local path without an exception. */
  predicate RemotePathsMap(o: EscapementOptions, remoteFiles: FileInfoMap)
    requires o.localDirectory != ""
  {
    forall r | r in remoteFiles :: RemoteFileToLocal(o, r).Some?
  }

  /** The local file must be pushed: its remote counterpart is missing or has
      a strictly older timestamp. */
  predicate NeedsPush(o: EscapementOptions, localFiles: FileInfoMap, remoteFiles: FileInfoMap, p: string)
    requires o.localDirectory != "" && p in localFiles
  {
    var r := LocalFileToRemote(o, p);
    r.Some? && (r.value !in remoteFiles || remoteFiles[r.value] < localFiles[p])
  }

  function UploadSet(o: EscapementOptions, localFiles: FileInfoMap, remoteFiles: FileInfoMap): set<string>
    requires o.localDirectory != ""
  {
    set p | p in localFiles && NeedsPush(o, localFiles, remoteFiles, p)
  }

  /** The remote file's local counterpart is not a key of the local map. */
  predicate Orphaned(o: EscapementOptions, localFiles: FileInfoMap, r: string)
    requires o.localDirectory != ""
  {
    var l := RemoteFileToLocal(o, r);
    l.Some? && l.value !in localFiles
  }

  function DeleteSet(o: EscapementOptions, localFiles: FileInfoMap, remoteFiles: FileInfoMap): set<string>
    requires o.localDirectory != ""
  {
    set r | r in remoteFiles && Orphaned(o, localFiles, r)
  }

  /** `filesToProcess'` is `filesToProcess` followed by the upload set, each
      path once, in no particular order. */
  ghost predicate UploadsSelected(o: EscapementOptions, localFiles: FileInfoMap, remoteFiles: FileInfoMap,
                                  filesToProcess: seq<string>, filesToProcess': seq<string>)
    requires o.localDirectory != ""
  {
    && |filesToProcess| <= |filesToProcess'|
    && filesToProcess'[..|filesToProcess|] == filesToProcess
    && (forall p :: p in filesToProcess'[|filesToProcess|..] <==> p in UploadSet(o, localFiles, remoteFiles))
    && Distinct(filesToProcess'[|filesToProcess|..])
  }

  /** `deletions` is the delete set, each path once, in no particular order. */
  ghost predicate DeletionsSelected(o: EscapementOptions, localFiles: FileInfoMap, remoteFiles: FileInfoMap,
                                    deletions: seq<string>)
    requires o.localDirectory != ""
  {
    && (forall r :: r in deletions <==> r in DeleteSet(o, localFiles, remoteFiles))
    && Distinct(deletions)
  }

  /** Upload phase: append to `filesToProcess` every local path whose remote
      counterpart is missing or strictly older. What was already in the list
      stays in front; the order of the appended paths is not specified.
      `outOfRange` is the exception of a local path too short to translate. */
  method SelectUploads(o: EscapementOptions, localFiles: FileInfoMap, remoteFiles: FileInfoMap,
                       filesToProcess: seq<string>)
    returns (outOfRange: bool, filesToProcess': seq<string>)
    requires o.localDirectory != ""
    ensures outOfRange <==> !LocalPathsMap(o, localFiles)
    ensures !outOfRange ==> UploadsSelected(o, localFiles, remoteFiles, filesToProcess, filesToProcess')
  {
    filesToProcess' := filesToProcess;
    var rest := localFiles.Keys;
    while rest != {}
      invariant rest <= localFiles.Keys
      invariant forall p | p in localFiles && p !in rest :: LocalFileToRemote(o, p).Some?
      invariant |filesToProcess| <= |filesToProcess'| && filesToProcess'[..|filesToProcess|] == filesToProcess
      invariant forall p :: p in filesToProcess'[|filesToProcess|..] <==>
        p in UploadSet(o, localFiles, remoteFiles) && p !in rest
      invariant Distinct(filesToProcess'[|filesToProcess|..])
      decreases rest
    {
      var file :| file in rest;
      var remoteFile := LocalFileToRemote(o, file);
      if remoteFile.None? {
        return true, filesToProcess';
      }
      if remoteFile.value !in remoteFiles || remoteFiles[remoteFile.value] < localFiles[file] {
        assert (filesToProcess' + [file])[|filesToProcess|..] == filesToProcess'[|filesToProcess|..] + [file];
        filesToProcess' := filesToProcess' + [file];
      }
      rest := rest - {file};
    }
    outOfRange := false;
  }

  /** Delete phase: the list, cleared first, holds every remote path whose
      local counterpart is not a local key; order not specified. */
  method SelectDeletions(o: EscapementOptions, localFiles: FileInfoMap, remoteFiles: FileInfoMap)
    returns (outOfRange: bool, filesToProcess: seq<string>)
    requires o.localDirectory != ""
    ensures outOfRange <==> !RemotePathsMap(o, remoteFiles)
    ensures !outOfRange ==> DeletionsSelected(o, localFiles, remoteFiles, filesToProcess)
  {
    filesToProcess := [];
    var rest := remoteFiles.Keys;
    while rest != {}
      invariant rest <= remoteFiles.Keys
      invariant forall r | r in remoteFiles && r !in rest :: RemoteFileToLocal(o, r).Some?
      invariant forall r :: r in filesToProcess <==> r in DeleteSet(o, localFiles, remoteFiles) && r !in rest
      invariant Distinct(filesToProcess)
      decreases rest
    {
      var file :| file in rest;
      var localFile := RemoteFileToLocal(o, file);
      if localFile.None? {
        return true, filesToProcess;
      }
      if localFile.value !in localFiles {
        filesToProcess := filesToProcess + [file];
      }
      rest := rest - {file};
    }
    outOfRange := false;
  }

  /** Local and remote maps agree: every local file has a remote counterpart
      at least as new, and every remote file has a local counterpart. */
  ghost predicate InSync(o: EscapementOptions, localFiles: FileInfoMap, remoteFiles: FileInfoMap)
    requires o.localDirectory != ""
  {
    && (forall p | p in localFiles ::
          var r := LocalFileToRemote(o, p);
          r.Some? && r.value in remoteFiles && localFiles[p] <= remoteFiles[r.value])
    && (forall r | r in remoteFiles ::
          var l := RemoteFileToLocal(o, r);
          l.Some? && l.value in localFiles)
  }

  /** Agreeing maps select nothing in either phase and raise no exception:
      both selections are empty exactly when the maps agree. */
  lemma InSyncSelectsNothing(o: EscapementOptions, localFiles: FileInfoMap, remoteFiles: FileInfoMap)
    requires o.localDirectory != ""
    ensures InSync(o, localFiles, remoteFiles) <==>
      && LocalPathsMap(o, localFiles) && RemotePathsMap(o, remoteFiles)
      && UploadSet(o, localFiles, remoteFiles) == {}
      && DeleteSet(o, localFiles, remoteFiles) == {}
  {
    if LocalPathsMap(o, localFiles) && RemotePathsMap(o, remoteFiles)
       && UploadSet(o, localFiles, remoteFiles) == {} && DeleteSet(o, localFiles, remoteFiles) == {} {
      forall p | p in localFiles
        ensures var r := LocalFileToRemote(o, p); r.Some? && r.value in remoteFiles && localFiles[p] <= remoteFiles[r.value]
      {
        assert p !in UploadSet(o, localFiles, remoteFiles);
      }
      forall r | r in remoteFiles
        ensures var l := RemoteFileToLocal(o, r); l.Some? && l.value in localFiles
      {
        assert r !in DeleteSet(o, localFiles, remoteFiles);
      }
    }
  }

  // ---------------------------------------------------------------------------
  // One synchronise pass

  /** What one pass did. On a fault, `state` holds the maps as far as the pass
      got and the cache store it started with. */
  datatype PassResult = PassResult(
    fault: Option<Fault>,
    state: RunState,
    loadedRemote: FileInfoMap,
    uploads: seq<string>,
    deletions: seq<string>,
    trace: seq<Event>)

  function CallIf(called: bool, e: Event): seq<Event>
  {
    if called then [e] else []
  }

  /** A pass that ran to the end: it disconnected, then saved, each once. */
  predicate Completed(trace: seq<Event>)
  {
    && |trace| >= 2
    && trace[|trace| - 2] == Disconnect && trace[|trace| - 1] == SaveCache
    && SaveCache !in trace[..|trace| - 1]
    && Disconnect !in trace[..|trace| - 2]
  }

  lemma CompletedShape(prefix: seq<Event>)
    requires Disconnect !in prefix && SaveCache !in prefix
    ensures Completed(prefix + [Disconnect, SaveCache])
  {
    var t := prefix + [Disconnect, SaveCache];
    assert t[..|t| - 1] == prefix + [Disconnect];
    assert t[..|t| - 2] == prefix;
  }

  /** The connection succeeded and the remote directory exists or was made. */
  predicate Ready(session: Session)
  {
    session.connectStatus == LoggedIn && (session.remoteDirectoryExists || session.remoteDirectoryCreated)
  }

  /** The options of a pass: the remote directory is replaced by the server's
      working directory once the pass has changed into it. */
  function PassOptions(st: RunState, session: Session): EscapementOptions
  {
    st.optionData.(remoteDirectory := session.workingDirectory)
  }

  /** The remote map once the cache has been loaded into it. */
  function Cached(st: RunState): FileInfoMap
  {
    Assign(st.remoteFiles, FileCache.CachedRemoteEntries(st.optionData.fileCache, st.cacheFiles))
  }

  /** The remote map after loading: the cached one, or the live listing when
      the cache left it empty. */
  function LoadedRemote(st: RunState, session: Session): FileInfoMap
  {
    if Cached(st) == map[]
    then ListingTimes(session.listings.remoteListing, session.listings.modifiedTime)
    else Cached(st)
  }

  /** The local map after the scan: every listed path assigned its stamp. */
  function ScannedLocal(st: RunState, session: Session): FileInfoMap
  {
    Assign(st.localFiles, Stamped(session.listings.localListing))
  }

  /** The calls of a pass up to and including loading the maps. */
  function Opening(st: RunState, session: Session): seq<Event>
  {
    [Connect(true, session.connectStatus)]
    + CallIf(!session.remoteDirectoryExists, MakeRemotePath(st.optionData.remoteDirectory))
    + CallIf(Cached(st) == map[], ListRemote(session.workingDirectory))
  }

  /** The calls of the two phases and of the size check. */
  function PhaseCalls(uploads: seq<string>, deletions: seq<string>, outOfSync: bool): seq<Event>
  {
    CallIf(uploads != [], PushFiles(uploads))
    + CallIf(deletions != [], DeleteFiles(deletions))
    + CallIf(outOfSync, OutOfSyncWarning)
  }

  /** The remote map after the upload phase. */
  function PushedRemote(session: Session, uploads: seq<string>, remoteFiles: FileInfoMap): FileInfoMap
  {
    if uploads != [] then session.remoteAfterPush else remoteFiles
  }

  /** The remote map after the delete phase. */
  function DeletedRemote(session: Session, deletions: seq<string>, remoteFiles: FileInfoMap): FileInfoMap
  {
    if deletions != [] then session.remoteAfterDelete else remoteFiles
  }

  /** An event a pass records before it disconnects: neither a pull, nor the
      disconnect, nor the save. */
  predicate Midway(e: Event)
  {
    !e.PullFiles? && !e.Disconnect? && !e.SaveCache?
  }

  /** Connect, make sure the remote directory exists, change into it and load
      both maps. */
  method OpenPass(st: RunState, session: Session)
    returns (fault: Option<Fault>, optionData: EscapementOptions, remoteFiles: FileInfoMap,
             localFiles: FileInfoMap, trace: seq<Event>)
    ensures session.connectStatus != LoggedIn ==>
      fault == Some(ConnectFailed(session.connectStatus)) && trace == [Connect(true, session.connectStatus)]
    ensures session.connectStatus == LoggedIn && !Ready(session) ==>
      fault == Some(RemoteDirectoryNotCreated)
      && trace == [Connect(true, LoggedIn), MakeRemotePath(st.optionData.remoteDirectory)]
    ensures Ready(session) ==>
      && fault.None? && trace == Opening(st, session)
      && optionData == PassOptions(st, session)
      && remoteFiles == LoadedRemote(st, session)
      && localFiles == ScannedLocal(st, session)
    ensures forall e | e in trace :: Midway(e)
  {
    optionData, remoteFiles, localFiles := st.optionData, st.remoteFiles, st.localFiles;
    trace := [Connect(true, session.connectStatus)];
    if session.connectStatus != LoggedIn {
      return Some(ConnectFailed(session.connectStatus)), optionData, remoteFiles, localFiles, trace;
    }
    if !session.remoteDirectoryExists {
      trace := trace + [MakeRemotePath(optionData.remoteDirectory)];
      if !session.remoteDirectoryCreated {
        return Some(RemoteDirectoryNotCreated), optionData, remoteFiles, localFiles, trace;
      }
    }
    optionData := optionData.(remoteDirectory := session.workingDirectory);
    var listedRemote;
    remoteFiles, localFiles, listedRemote :=
      LoadFilesBeforeSynchronise(optionData, st.cacheFiles, st.remoteFiles, st.localFiles, session.listings);
    trace := trace + CallIf(listedRemote, ListRemote(optionData.remoteDirectory));
    fault := None;
  }

  /** The two phases and the size check. PASS 1 appends the upload set to
      `filesToProcess` and pushes the list when it is non-empty; PASS 2 clears
      the list, fills it with the delete set and deletes when it is non-empty. */
  method Reconcile(o: EscapementOptions, session: Session, localFiles: FileInfoMap, remoteFiles: FileInfoMap,
                   filesToProcess: seq<string>)
    returns (outOfRange: bool, uploads: seq<string>, deletions: seq<string>,
             remoteFiles': FileInfoMap, trace: seq<Event>)
    requires o.localDirectory != ""
    ensures !LocalPathsMap(o, localFiles) ==> outOfRange && trace == []
    ensures LocalPathsMap(o, localFiles) ==> UploadsSelected(o, localFiles, remoteFiles, filesToProcess, uploads)
    ensures LocalPathsMap(o, localFiles) && outOfRange ==>
      && !RemotePathsMap(o, PushedRemote(session, uploads, remoteFiles))
      && trace == CallIf(uploads != [], PushFiles(uploads))
    ensures !outOfRange ==>
      && LocalPathsMap(o, localFiles)
      && RemotePathsMap(o, PushedRemote(session, uploads, remoteFiles))
      && DeletionsSelected(o, localFiles, PushedRemote(session, uploads, remoteFiles), deletions)
      && remoteFiles' == DeletedRemote(session, deletions, PushedRemote(session, uploads, remoteFiles))
      && trace == PhaseCalls(uploads, deletions, |localFiles| != |remoteFiles'|)
    ensures forall e | e in trace :: Midway(e)
  {
    trace := [];
    remoteFiles' := remoteFiles;
    deletions := [];
    // PASS 1
    outOfRange, uploads := SelectUploads(o, localFiles, remoteFiles, filesToProcess);
    if outOfRange {
      return;
    }
    if uploads != [] {
      trace := trace + [PushFiles(uploads)];
      remoteFiles' := session.remoteAfterPush;
    }
    // PASS 2
    outOfRange, deletions := SelectDeletions(o, localFiles, remoteFiles');
    if outOfRange {
      return;
    }
    if deletions != [] {
      trace := trace + [DeleteFiles(deletions)];
      remoteFiles' := session.remoteAfterDelete;
    }
    if |localFiles| != |remoteFiles'| {
      trace := trace + [OutOfSyncWarning];
    }
  }

  /** The cache store after a save of `state`'s maps. */
  ghost predicate Saved(o: EscapementOptions, before: FileCache.CacheFiles, state: RunState)
  {
    && (o.fileCache == "" ==> state.cacheFiles == before)
    && (o.fileCache != "" ==>
          && o.fileCache in state.cacheFiles
          && state.cacheFiles == before[o.fileCache := state.cacheFiles[o.fileCache]]
          && FileCache.Written(state.cacheFiles[o.fileCache], o, state.remoteFiles, state.localFiles))
  }

  /** What the phases and the save of a completed pass did, given the maps
      the pass loaded. */
  ghost predicate PhaseEffects(o: EscapementOptions, session: Session, filesToProcess: seq<string>,
                               before: FileCache.CacheFiles, r: PassResult)
  {
    var afterPush := PushedRemote(session, r.uploads, r.loadedRemote);
    && o.localDirectory != ""
    && r.state.optionData == o
    && UploadsSelected(o, r.state.localFiles, r.loadedRemote, filesToProcess, r.uploads)
    && DeletionsSelected(o, r.state.localFiles, afterPush, r.deletions)
    && r.state.remoteFiles == DeletedRemote(session, r.deletions, afterPush)
    && Saved(o, before, r.state)
  }

  /** Everything a completed pass did, call by call. */
  ghost predicate PassEffects(st: RunState, session: Session, filesToProcess: seq<string>, r: PassResult)
  {
    && r.loadedRemote == LoadedRemote(st, session)
    && r.state.localFiles == ScannedLocal(st, session)
    && PhaseEffects(PassOptions(st, session), session, filesToProcess, st.cacheFiles, r)
    && r.trace == Opening(st, session)
                  + PhaseCalls(r.uploads, r.deletions, |r.state.localFiles| != |r.state.remoteFiles|)
                  + [Disconnect, SaveCache]
  }

  lemma OpeningShape(st: RunState, session: Session)
    ensures |Opening(st, session)| > 0 && Opening(st, session)[0] == Connect(true, session.connectStatus)
    ensures forall e | e in Opening(st, session) :: Midway(e) && !e.PushFiles? && !e.DeleteFiles?
  {
  }

  lemma MidwayConcat(a: seq<Event>, b: seq<Event>)
    requires forall e | e in a :: Midway(e)
    requires forall e | e in b :: Midway(e)
    ensures forall e | e in a + b :: Midway(e)
  {
  }

  lemma MidwayNoPull(trace: seq<Event>, tail: seq<Event>)
    requires forall e | e in trace :: Midway(e)
    requires forall e | e in tail :: !e.PullFiles?
    ensures forall e | e in trace + tail :: !e.PullFiles?
  {
  }

  /** The rest of a pass once the maps are loaded: both phases, then the
      disconnect and the save. */
  method FinishPass(st: RunState, session: Session, filesToProcess: seq<string>,
                    optionData: EscapementOptions, loadedRemote: FileInfoMap, localFiles: FileInfoMap)
    returns (r: PassResult)
    requires st.optionData.localDirectory != "" && Ready(session)
    requires optionData == PassOptions(st, session)
    requires loadedRemote == LoadedRemote(st, session) && localFiles == ScannedLocal(st, session)
    ensures r.state.optionData == optionData && r.state.localFiles == localFiles
    ensures |r.trace| > 0 && r.trace[0] == Connect(true, session.connectStatus)
    ensures forall e | e in r.trace :: !e.PullFiles?
    ensures r.fault.None? || r.fault == Some(PathOutOfRange)
    ensures !LocalPathsMap(optionData, localFiles) ==>
      r.fault == Some(PathOutOfRange) && forall e | e in r.trace :: !e.PushFiles?
    ensures r.loadedRemote == loadedRemote
    ensures LocalPathsMap(optionData, localFiles) ==>
      UploadsSelected(optionData, localFiles, loadedRemote, filesToProcess, r.uploads)
    ensures r.fault.None? <==>
      LocalPathsMap(optionData, localFiles) && RemotePathsMap(optionData, PushedRemote(session, r.uploads, loadedRemote))
    ensures r.fault.Some? ==> SaveCache !in r.trace && Disconnect !in r.trace && r.state.cacheFiles == st.cacheFiles
    ensures r.fault.None? ==> Completed(r.trace) && PassEffects(st, session, filesToProcess, r)
  {
    var opening := Opening(st, session);
    OpeningShape(st, session);
    var outOfRange, uploads, deletions, remoteFiles, phaseTrace :=
      Reconcile(optionData, session, localFiles, loadedRemote, filesToProcess);
    var trace := opening + phaseTrace;
    MidwayConcat(opening, phaseTrace);
    if outOfRange {
      if !LocalPathsMap(optionData, localFiles) {
        assert trace == opening;
      }
      MidwayNoPull(trace, []);
      assert trace + [] == trace;
      return PassResult(Some(PathOutOfRange), RunState(optionData, remoteFiles, localFiles, st.cacheFiles),
                        loadedRemote, uploads, deletions, trace);
    }
    r := SavePass(optionData, session, filesToProcess, st.cacheFiles, localFiles, loadedRemote,
                  uploads, deletions, remoteFiles, trace);
  }

  /** Disconnect and save the maps of a pass whose phases completed. */
  method SavePass(o: EscapementOptions, session: Session, filesToProcess: seq<string>,
                  before: FileCache.CacheFiles, localFiles: FileInfoMap, loadedRemote: FileInfoMap,
                  uploads: seq<string>, deletions: seq<string>, remoteFiles: FileInfoMap, trace: seq<Event>)
    returns (r: PassResult)
    requires o.localDirectory != ""
    requires UploadsSelected(o, localFiles, loadedRemote, filesToProcess, uploads)
    requires DeletionsSelected(o, localFiles, PushedRemote(session, uploads, loadedRemote), deletions)
    requires remoteFiles == DeletedRemote(session, deletions, PushedRemote(session, uploads, loadedRemote))
    requires forall e | e in trace :: Midway(e)
    ensures r.fault.None? && r.loadedRemote == loadedRemote && r.state.localFiles == localFiles
    ensures r.uploads == uploads && r.deletions == deletions && r.state.remoteFiles == remoteFiles
    ensures r.trace == trace + [Disconnect, SaveCache]
    ensures forall e | e in r.trace :: !e.PullFiles?
    ensures Completed(r.trace) && PhaseEffects(o, session, filesToProcess, before, r)
  {
    var cacheFiles := FileCache.SaveCachedFiles(o, remoteFiles, localFiles, before);
    r := PassResult(None, RunState(o, remoteFiles, localFiles, cacheFiles),
                    loadedRemote, uploads, deletions, trace + [Disconnect, SaveCache]);
    CompletedShape(trace);
    MidwayNoPull(trace, [Disconnect, SaveCache]);
  }

  /** One iteration of the synchronise loop. `filesToProcess` is the list as
      the previous iteration left it: the upload phase appends to it. */
  method SynchronisePass(st: RunState, session: Session, filesToProcess: seq<string>)
    returns (r: PassResult)
    requires st.optionData.localDirectory != ""
    ensures |r.trace| > 0 && r.trace[0] == Connect(true, session.connectStatus)
    ensures r.state.optionData.localDirectory == st.optionData.localDirectory
    ensures r.state.optionData.pollTime == st.optionData.pollTime
    ensures st.localFiles.Keys <= r.state.localFiles.Keys
    ensures forall e | e in r.trace :: !e.PullFiles?
    ensures session.connectStatus != LoggedIn ==>
      r.fault == Some(ConnectFailed(session.connectStatus)) && r.trace == [Connect(true, session.connectStatus)]
    ensures session.connectStatus == LoggedIn && !Ready(session) ==> r.fault == Some(RemoteDirectoryNotCreated)
    ensures Ready(session) ==> r.fault.None? || r.fault == Some(PathOutOfRange)
    ensures Ready(session) && !LocalPathsMap(PassOptions(st, session), ScannedLocal(st, session)) ==>
      r.fault == Some(PathOutOfRange) && forall e | e in r.trace :: !e.PushFiles?
    ensures Ready(session) ==> r.loadedRemote == LoadedRemote(st, session)
    ensures Ready(session) && LocalPathsMap(PassOptions(st, session), ScannedLocal(st, session)) ==>
      UploadsSelected(PassOptions(st, session), ScannedLocal(st, session), r.loadedRemote, filesToProcess, r.uploads)
    ensures Ready(session) ==>
      (r.fault.None? <==>
         LocalPathsMap(PassOptions(st, session), ScannedLocal(st, session))
         && RemotePathsMap(PassOptions(st, session), PushedRemote(session, r.uploads, r.loadedRemote)))
    ensures r.fault.Some? ==> SaveCache !in r.trace && Disconnect !in r.trace && r.state.cacheFiles == st.cacheFiles
    ensures r.fault.None? ==> Ready(session) && Completed(r.trace) && PassEffects(st, session, filesToProcess, r)
  {
    var fault, optionData, loadedRemote, localFiles, trace := OpenPass(st, session);
    if fault.Some? {
      return PassResult(fault, st, st.remoteFiles, filesToProcess, [], trace);
    }
    r := FinishPass(st, session, filesToProcess, optionData, loadedRemote, localFiles);
  }

  // ---------------------------------------------------------------------------
  // The poll loop

  /** How the synchronise loop ended: a pass with poll time zero completed, a
      pass raised an exception, or the loop is still polling when the sessions
      given to the model run out. */
  datatype RunOutcome = Finished | Failed(fault: Fault) | StillPolling

  /** The variables the `j`th pass starts from: empty maps and the options as
      given before the first pass, what the previous pass left otherwise. */
  function StateBefore(opts: EscapementOptions, files: FileCache.CacheFiles, passes: seq<PassResult>, j: nat)
    : RunState
    requires j <= |passes|
  {
    if j == 0 then RunState(opts, map[], map[], files) else passes[j - 1].state
  }

  /** `filesToProcess` as the `j`th pass finds it: empty before the first
      pass, the previous pass's delete list afterwards, since the list is
      cleared only before the delete phase and `pushFiles` and `deleteFiles`
      are taken to leave it unchanged. */
  function PendingBefore(passes: seq<PassResult>, j: nat): seq<string>
    requires j <= |passes|
  {
    if j == 0 then [] else passes[j - 1].deletions
  }

  /** The calls of all passes, one after the other. */
  function Traces(passes: seq<PassResult>): seq<Event>
  {
    if passes == [] then [] else Traces(passes[..|passes| - 1]) + passes[|passes| - 1].trace
  }

  /** What the `j`th pass did, in terms of the state it started from. */
  ghost predicate PassFacts(opts: EscapementOptions, files: FileCache.CacheFiles, sessions: seq<Session>,
                            passes: seq<PassResult>, j: nat)
    requires j < |passes| && j < |sessions|
  {
    var st := StateBefore(opts, files, passes, j);
    var r := passes[j];
    && |r.trace| > 0 && r.trace[0] == Connect(true, sessions[j].connectStatus)
    && r.state.optionData.localDirectory == opts.localDirectory
    && r.state.optionData.pollTime == opts.pollTime
    && st.localFiles.Keys <= r.state.localFiles.Keys
    && (sessions[j].connectStatus != LoggedIn ==>
          r.fault == Some(ConnectFailed(sessions[j].connectStatus))
          && r.trace == [Connect(true, sessions[j].connectStatus)])
    && (sessions[j].connectStatus == LoggedIn && !Ready(sessions[j]) ==> r.fault == Some(RemoteDirectoryNotCreated))
    && (Ready(sessions[j]) ==>
          && (r.fault.None? || r.fault == Some(PathOutOfRange))
          && r.loadedRemote == LoadedRemote(st, sessions[j]))
    && (Ready(sessions[j]) && st.optionData.localDirectory != "" ==>
          && (LocalPathsMap(PassOptions(st, sessions[j]), ScannedLocal(st, sessions[j])) ==>
                UploadsSelected(PassOptions(st, sessions[j]), ScannedLocal(st, sessions[j]), r.loadedRemote,
                                PendingBefore(passes, j), r.uploads))
          && (r.fault.None? <==>
                LocalPathsMap(PassOptions(st, sessions[j]), ScannedLocal(st, sessions[j]))
                && RemotePathsMap(PassOptions(st, sessions[j]), PushedRemote(sessions[j], r.uploads, r.loadedRemote))))
    && (r.fault.Some? ==> SaveCache !in r.trace && Disconnect !in r.trace && r.state.cacheFiles == st.cacheFiles)
    && (r.fault.None? ==> Completed(r.trace) && PassEffects(st, sessions[j], PendingBefore(passes, j), r))
  }

  /** SychroniseFiles: passes run one after the other, each with the maps,
      options and list the previous one left, until a pass raises an exception
      or, with poll time zero, after the first. `sessions[j]` answers the
      calls of the `j`th pass; the wait between passes is not modelled. */
  method SynchroniseFiles(opts: EscapementOptions, sessions: seq<Session>, files: FileCache.CacheFiles)
    returns (outcome: RunOutcome, passes: seq<PassResult>, trace: seq<Event>)
    requires opts.localDirectory != "" && |sessions| > 0
    ensures 1 <= |passes| <= |sessions|
    ensures opts.pollTime == 0 ==> |passes| == 1
    ensures forall j | 0 <= j < |passes| - 1 :: passes[j].fault.None?
    ensures outcome.Failed? <==> passes[|passes| - 1].fault.Some?
    ensures outcome.Failed? ==> passes[|passes| - 1].fault == Some(outcome.fault)
    ensures outcome == Finished <==> opts.pollTime == 0 && passes[|passes| - 1].fault.None?
    ensures outcome == StillPolling ==> opts.pollTime != 0 && |passes| == |sessions|
    ensures forall j | 0 <= j < |passes| :: PassFacts(opts, files, sessions, passes, j)
    ensures trace == Traces(passes)
    ensures forall e | e in trace :: !e.PullFiles?
  {
    passes, trace := [], [];
    var i := 0;
    while i < |sessions|
      invariant 0 <= i <= |sessions| && |passes| == i
      invariant i > 0 ==> opts.pollTime != 0
      invariant forall j | 0 <= j < i :: passes[j].fault.None?
      invariant forall j | 0 <= j < i :: PassFacts(opts, files, sessions, passes, j)
      invariant trace == Traces(passes)
      invariant forall e | e in trace :: !e.PullFiles?
    {
      var r := NextPass(opts, files, sessions, passes);
      passes := passes + [r];
      trace := trace + r.trace;
      if r.fault.Some? {
        return Failed(r.fault.value), passes, trace;
      }
      if opts.pollTime == 0 {
        return Finished, passes, trace;
      }
      i := i + 1;
    }
    outcome := StillPolling;
  }

  /** Run the next pass from the state and list the last one left. */
  method NextPass(opts: EscapementOptions, files: FileCache.CacheFiles, sessions: seq<Session>,
                  passes: seq<PassResult>)
    returns (r: PassResult)
    requires opts.localDirectory != "" && |passes| < |sessions|
    requires forall j | 0 <= j < |passes| :: PassFacts(opts, files, sessions, passes, j)
    ensures forall j | 0 <= j <= |passes| :: PassFacts(opts, files, sessions, passes + [r], j)
    ensures Traces(passes + [r]) == Traces(passes) + r.trace
    ensures forall e | e in r.trace :: !e.PullFiles?
  {
    var i := |passes|;
    var st := StateBefore(opts, files, passes, i);
    assert i > 0 ==> PassFacts(opts, files, sessions, passes, i - 1);
    r := SynchronisePass(st, sessions[i], PendingBefore(passes, i));
    AppendPass(opts, files, sessions, passes, r);
    assert PassFacts(opts, files, sessions, passes + [r], i);
  }

  /** Appending a pass keeps what is known of the earlier ones. */
  lemma AppendPass(opts: EscapementOptions, files: FileCache.CacheFiles, sessions: seq<Session>,
                   passes: seq<PassResult>, r: PassResult)
    requires |passes| < |sessions|
    requires forall j | 0 <= j < |passes| :: PassFacts(opts, files, sessions, passes, j)
    ensures forall j | 0 <= j < |passes| :: PassFacts(opts, files, sessions, passes + [r], j)
    ensures StateBefore(opts, files, passes + [r], |passes|) == StateBefore(opts, files, passes, |passes|)
    ensures PendingBefore(passes + [r], |passes|) == PendingBefore(passes, |passes|)
    ensures Traces(passes + [r]) == Traces(passes) + r.trace
  {
    var ps := passes + [r];
    assert ps[..|ps| - 1] == passes;
    forall j | 0 <= j < |passes| ensures PassFacts(opts, files, sessions, ps, j) {
      assert PassFacts(opts, files, sessions, passes, j);
      assert ps[j] == passes[j];
      assert StateBefore(opts, files, ps, j) == StateBefore(opts, files, passes, j);
      assert PendingBefore(ps, j) == PendingBefore(passes, j);
    }
  }

  /** The leftover list: after a pass that deleted something, the next pass
      hands the deleted remote paths to pushFiles as though they were local
      files to upload, even when the two maps it loaded agree. */
  lemma LeftoverDeletionsArePushed(st: RunState, session: Session, pending: seq<string>, r: PassResult)
    requires PassEffects(st, session, pending, r) && pending != []
    requires InSync(PassOptions(st, session), r.state.localFiles, r.loadedRemote)
    ensures r.uploads == pending
    ensures PushFiles(pending) in r.trace
  {
    var o := PassOptions(st, session);
    InSyncSelectsNothing(o, r.state.localFiles, r.loadedRemote);
    var added := r.uploads[|pending|..];
    FirstListed(added, UploadSet(o, r.state.localFiles, r.loadedRemote));
    assert r.uploads == r.uploads[..|pending|] + added;
    assert r.uploads == pending;
    var calls := PhaseCalls(r.uploads, r.deletions, |r.state.localFiles| != |r.state.remoteFiles|);
    assert calls[0] == PushFiles(pending);
    assert r.trace == Opening(st, session) + calls + [Disconnect, SaveCache];
    assert r.trace[|Opening(st, session)|] == PushFiles(pending);
  }

  /** With an empty list to start from, a pass over agreeing maps pushes and
      deletes nothing: it only connects, loads, disconnects and saves. */
  lemma InSyncPassIsQuiet(st: RunState, session: Session, r: PassResult)
    requires PassEffects(st, session, [], r)
    requires InSync(PassOptions(st, session), r.state.localFiles, r.loadedRemote)
    ensures r.uploads == [] && r.deletions == []
    ensures r.state.remoteFiles == r.loadedRemote
    ensures forall e | e in r.trace :: !e.PushFiles? && !e.DeleteFiles?
  {
    InSyncPhasesAreQuiet(PassOptions(st, session), session, st.cacheFiles, r);
    OpeningShape(st, session);
    QuietCalls(Opening(st, session), |r.state.localFiles| != |r.state.remoteFiles|);
  }

  lemma QuietCalls(opening: seq<Event>, outOfSync: bool)
    requires forall e | e in opening :: !e.PushFiles? && !e.DeleteFiles?
    ensures forall e | e in opening + PhaseCalls([], [], outOfSync) + [Disconnect, SaveCache] ::
      !e.PushFiles? && !e.DeleteFiles?
  {
    var t := opening + PhaseCalls([], [], outOfSync) + [Disconnect, SaveCache];
    forall e | e in t ensures !e.PushFiles? && !e.DeleteFiles? {
      if e !in opening {
        assert e in PhaseCalls([], [], outOfSync) + [Disconnect, SaveCache];
      }
    }
  }

  lemma InSyncPhasesAreQuiet(o: EscapementOptions, session: Session, before: FileCache.CacheFiles, r: PassResult)
    requires PhaseEffects(o, session, [], before, r)
    requires InSync(o, r.state.localFiles, r.loadedRemote)
    ensures r.uploads == [] && r.deletions == []
    ensures r.state.remoteFiles == r.loadedRemote
  {
    InSyncSelectsNothing(o, r.state.localFiles, r.loadedRemote);
    FirstListed(r.uploads[0..], UploadSet(o, r.state.localFiles, r.loadedRemote));
    assert r.uploads[0..] == r.uploads;
    FirstListed(r.deletions, DeleteSet(o, r.state.localFiles, r.loadedRemote));
  }

  /** A list whose elements all belong to a set starts with a member of it. */
  lemma FirstListed(s: seq<string>, members: set<string>)
    requires forall p :: p in s ==> p in members
    ensures s != [] ==> s[0] in members
  {
  }


  // ---------------------------------------------------------------------------
  // Pull mode

  /** What the server and the disk answer during a pull. `remoteFiles` is what
      the recursive remote listing reports and `localAfterPull` what pullFiles
      leaves in the local map; nothing is assumed about either. */
  datatype PullSession = PullSession(
    connectStatus: int,
    remoteDirectoryExists: bool,
    workingDirectory: string,
    remoteFiles: FileInfoMap,
    localAfterPull: FileInfoMap)

  /** The pull list: every remote key once, in no particular order. */
  method PullList(remoteFiles: FileInfoMap) returns (filesToProcess: seq<string>)
    ensures forall r :: r in filesToProcess <==> r in remoteFiles
    ensures Distinct(filesToProcess)
  {
    filesToProcess := [];
    var rest := remoteFiles.Keys;
    while rest != {}
      invariant rest <= remoteFiles.Keys
      invariant forall r :: r in filesToProcess <==> r in remoteFiles && r !in rest
      invariant Distinct(filesToProcess)
      decreases rest
    {
      var file :| file in rest;
      filesToProcess := filesToProcess + [file];
      rest := rest - {file};
    }
  }

  /** The remote paths the keys in `done` translate to. */
  ghost function CopiedPaths(o: EscapementOptions, done: set<string>): set<string>
    requires o.localDirectory != ""
    requires forall p | p in done :: LocalFileToRemote(o, p).Some?
  {
    set p | p in done :: LocalFileToRemote(o, p).value
  }

  /** `after` is `before` with the timestamp of each local key in `done`
      written at the remote path it translates to, in some order: a remote
      path some key of `done` translates to holds the timestamp of one such
      key, every other entry of `before` is unchanged. */
  ghost predicate TimesCopied(o: EscapementOptions, localFiles: FileInfoMap, done: set<string>,
                              before: FileInfoMap, after: FileInfoMap)
    requires o.localDirectory != "" && done <= localFiles.Keys
    requires forall p | p in done :: LocalFileToRemote(o, p).Some?
  {
    && after.Keys == before.Keys + CopiedPaths(o, done)
    && (forall r | r in after && r in CopiedPaths(o, done) ::
          exists p | p in done :: LocalFileToRemote(o, p) == Some(r) && after[r] == localFiles[p])
    && (forall r | r in after && r !in CopiedPaths(o, done) :: after[r] == before[r])
  }

  lemma CopyStep(o: EscapementOptions, localFiles: FileInfoMap, done: set<string>,
                 before: FileInfoMap, after: FileInfoMap, file: string)
    requires o.localDirectory != "" && done <= localFiles.Keys
    requires forall p | p in done :: LocalFileToRemote(o, p).Some?
    requires TimesCopied(o, localFiles, done, before, after)
    requires file in localFiles && file !in done && LocalFileToRemote(o, file).Some?
    ensures TimesCopied(o, localFiles, done + {file}, before,
                        after[LocalFileToRemote(o, file).value := localFiles[file]])
  {
    var r := LocalFileToRemote(o, file).value;
    var done' := done + {file};
    var after' := after[r := localFiles[file]];
    assert CopiedPaths(o, done') == CopiedPaths(o, done) + {r};
    forall k | k in after' && k in CopiedPaths(o, done')
      ensures exists p | p in done' :: LocalFileToRemote(o, p) == Some(k) && after'[k] == localFiles[p]
    {
      if k == r {
        assert LocalFileToRemote(o, file) == Some(k) && after'[k] == localFiles[file];
      } else {
        var p :| p in done && LocalFileToRemote(o, p) == Some(k) && after[k] == localFiles[p];
        assert p in done';
      }
    }
  }

  /** The overwrite loop after a pull: each local key's timestamp is written
      at the remote path it translates to. `outOfRange` is the exception of a
      local key too short to translate. */
  method CopyLocalTimes(o: EscapementOptions, localFiles: FileInfoMap, remoteFiles: FileInfoMap)
    returns (outOfRange: bool, remoteFiles': FileInfoMap)
    requires o.localDirectory != ""
    ensures outOfRange <==> !LocalPathsMap(o, localFiles)
    ensures !outOfRange ==> TimesCopied(o, localFiles, localFiles.Keys, remoteFiles, remoteFiles')
  {
    remoteFiles' := remoteFiles;
    var rest := localFiles.Keys;
    assert CopiedPaths(o, localFiles.Keys - rest) == {};
    while rest != {}
      invariant rest <= localFiles.Keys
      invariant forall p | p in localFiles && p !in rest :: LocalFileToRemote(o, p).Some?
      invariant TimesCopied(o, localFiles, localFiles.Keys - rest, remoteFiles, remoteFiles')
      decreases rest
    {
      var file :| file in rest;
      var remoteFile := LocalFileToRemote(o, file);
      if remoteFile.None? {
        return true, remoteFiles';
      }
      CopyStep(o, localFiles, localFiles.Keys - rest, remoteFiles, remoteFiles', file);
      assert localFiles.Keys - (rest - {file}) == (localFiles.Keys - rest) + {file};
      remoteFiles' := remoteFiles'[remoteFile.value := localFiles[file]];
      rest := rest - {file};
    }
    assert localFiles.Keys - rest == localFiles.Keys;
    outOfRange := false;
  }

  /** No two local keys translate to the same remote path. */
  ghost predicate TranslatesApart(o: EscapementOptions, localFiles: FileInfoMap)
    requires o.localDirectory != ""
  {
    forall p, q | p in localFiles && q in localFiles && LocalFileToRemote(o, p) == LocalFileToRemote(o, q) :: p == q
  }

  /** Keys that all lie under the local root translate apart. */
  lemma UnderRootTranslatesApart(o: EscapementOptions, localFiles: FileInfoMap)
    requires o.localDirectory != ""
    requires forall p | p in localFiles :: |LocalRoot(o)| <= |p| && p[..|LocalRoot(o)|] == LocalRoot(o)
    ensures TranslatesApart(o, localFiles)
  {
    forall p, q | p in localFiles && q in localFiles && LocalFileToRemote(o, p) == LocalFileToRemote(o, q)
      ensures p == q
    {
      LocalMappingInjectiveUnderRoot(o, p, q);
    }
  }

  /** When the local keys translate apart, each pulled file's remote entry
      carries exactly its local timestamp, so a later synchronise pass over
      these maps selects nothing to upload. */
  lemma CopiedTimesLeaveNothingToPush(o: EscapementOptions, localFiles: FileInfoMap,
                                      before: FileInfoMap, after: FileInfoMap)
    requires o.localDirectory != "" && LocalPathsMap(o, localFiles) && TranslatesApart(o, localFiles)
    requires TimesCopied(o, localFiles, localFiles.Keys, before, after)
    ensures forall p | p in localFiles ::
      LocalFileToRemote(o, p).value in after && after[LocalFileToRemote(o, p).value] == localFiles[p]
    ensures UploadSet(o, localFiles, after) == {}
  {
    forall p | p in localFiles
      ensures LocalFileToRemote(o, p).value in after && after[LocalFileToRemote(o, p).value] == localFiles[p]
    {
      var r := LocalFileToRemote(o, p).value;
      assert r in CopiedPaths(o, localFiles.Keys);
      var q :| q in localFiles && LocalFileToRemote(o, q) == Some(r) && after[r] == localFiles[q];
    }
  }

  /** The point of writing the pulled timestamps back: a later run that
      starts from empty maps loads the saved remote map from the cache and,
      while the local scan still finds exactly the pulled files, its upload
      phase selects nothing. */
  lemma PullThenSyncPushesNothing(o: EscapementOptions, listed: FileInfoMap, pulledState: RunState,
                                  st: RunState, session: Session)
    requires o.localDirectory != "" && o.fileCache != ""
    requires Saved(o, st.cacheFiles, pulledState) && pulledState.remoteFiles != map[]
    requires LocalPathsMap(o, pulledState.localFiles) && TranslatesApart(o, pulledState.localFiles)
    requires TimesCopied(o, pulledState.localFiles, pulledState.localFiles.Keys, listed, pulledState.remoteFiles)
    requires st.remoteFiles == map[] && st.cacheFiles == pulledState.cacheFiles
    requires st.optionData.fileCache == o.fileCache && PassOptions(st, session) == o
    requires ScannedLocal(st, session) == pulledState.localFiles
    ensures LoadedRemote(st, session) == pulledState.remoteFiles
    ensures UploadSet(PassOptions(st, session), ScannedLocal(st, session), LoadedRemote(st, session)) == {}
  {
    var doc := pulledState.cacheFiles[o.fileCache];
    FileCache.SaveLoadRoundTrip(doc, o, pulledState.remoteFiles, pulledState.localFiles, map[]);
    assert FileCache.CachedRemoteEntries(o.fileCache, st.cacheFiles)
           == FileCache.CachedRemoteEntries(o.fileCache, map[o.fileCache := doc]);
    assert Cached(st) == pulledState.remoteFiles;
    CopiedTimesLeaveNothingToPush(o, pulledState.localFiles, listed, pulledState.remoteFiles);
  }

  /** The pull could proceed: logged in and the remote directory exists. */
  predicate PullReady(session: PullSession)
  {
    session.connectStatus == LoggedIn && session.remoteDirectoryExists
  }

  /** The local map after the pull phase: what pullFiles left, or still empty
      when there was nothing to pull. */
  function PulledLocal(session: PullSession, pulled: seq<string>): FileInfoMap
  {
    if pulled != [] then session.localAfterPull else map[]
  }

  /** The calls of a pull that got past the directory check, up to and
      including the disconnect. */
  function PullCalls(session: PullSession, pulled: seq<string>, outOfSync: bool): seq<Event>
  {
    [Connect(false, session.connectStatus), ListRemote(session.workingDirectory)]
    + CallIf(pulled != [], PullFiles(pulled))
    + CallIf(outOfSync, OutOfSyncWarning)
    + [Disconnect]
  }

  /** An event a pull may record: nothing that writes to the server. */
  predicate PullEvent(e: Event)
  {
    !e.PushFiles? && !e.DeleteFiles? && !e.MakeRemotePath?
  }

  /** The part of PullFiles up to the disconnect: connect without SSL,
      require the remote directory, change into it, list it, pull every remote
      file and warn when the two maps differ in size. */
  method StartPull(opts: EscapementOptions, session: PullSession)
    returns (fault: Option<Fault>, optionData: EscapementOptions, pulled: seq<string>,
             localFiles: FileInfoMap, trace: seq<Event>)
    ensures |trace| > 0 && trace[0] == Connect(false, session.connectStatus)
    ensures forall e | e in trace :: PullEvent(e) && e != SaveCache
    ensures session.connectStatus != LoggedIn ==>
      fault == Some(ConnectFailed(session.connectStatus)) && trace == [Connect(false, session.connectStatus)]
    ensures session.connectStatus == LoggedIn && !session.remoteDirectoryExists ==>
      fault == Some(RemoteDirectoryMissing) && trace == [Connect(false, LoggedIn)]
    ensures PullReady(session) ==>
      && fault.None?
      && (forall r :: r in pulled <==> r in session.remoteFiles) && Distinct(pulled)
      && optionData == opts.(remoteDirectory := session.workingDirectory)
      && localFiles == PulledLocal(session, pulled)
      && trace == PullCalls(session, pulled, |localFiles| != |session.remoteFiles|)
  {
    optionData := opts;
    trace := [Connect(false, session.connectStatus)];
    pulled, localFiles := [], map[];
    if session.connectStatus != LoggedIn {
      return Some(ConnectFailed(session.connectStatus)), optionData, pulled, localFiles, trace;
    }
    if !session.remoteDirectoryExists {
      return Some(RemoteDirectoryMissing), optionData, pulled, localFiles, trace;
    }
    optionData := optionData.(remoteDirectory := session.workingDirectory);
    trace := trace + [ListRemote(optionData.remoteDirectory)];
    pulled := PullList(session.remoteFiles);
    if pulled != [] {
      trace := trace + [PullFiles(pulled)];
      localFiles := session.localAfterPull;
    }
    if |localFiles| != |session.remoteFiles| {
      trace := trace + [OutOfSyncWarning];
    }
    trace := trace + [Disconnect];
    fault := None;
  }

  /** PullFiles: the calls up to the disconnect, then each pulled timestamp
      written back into the remote map and both maps saved. */
  method Pull(opts: EscapementOptions, session: PullSession, files: FileCache.CacheFiles)
    returns (fault: Option<Fault>, state: RunState, pulled: seq<string>, trace: seq<Event>)
    requires opts.localDirectory != ""
    ensures |trace| > 0 && trace[0] == Connect(false, session.connectStatus)
    ensures forall e | e in trace :: PullEvent(e)
    ensures session.connectStatus != LoggedIn ==>
      fault == Some(ConnectFailed(session.connectStatus)) && trace == [Connect(false, session.connectStatus)]
    ensures session.connectStatus == LoggedIn && !session.remoteDirectoryExists ==>
      fault == Some(RemoteDirectoryMissing) && trace == [Connect(false, LoggedIn)]
    ensures fault.Some? ==> SaveCache !in trace && state.cacheFiles == files
    ensures PullReady(session) ==>
      && (forall r :: r in pulled <==> r in session.remoteFiles) && Distinct(pulled)
      && state.optionData == opts.(remoteDirectory := session.workingDirectory)
      && state.localFiles == PulledLocal(session, pulled)
      && (fault.None? <==> LocalPathsMap(state.optionData, state.localFiles))
      && (fault.Some? ==> fault == Some(PathOutOfRange)
                          && trace == PullCalls(session, pulled, |state.localFiles| != |session.remoteFiles|))
    ensures fault.None? ==>
      && PullReady(session)
      && TimesCopied(state.optionData, state.localFiles, state.localFiles.Keys, session.remoteFiles, state.remoteFiles)
      && trace == PullCalls(session, pulled, |state.localFiles| != |session.remoteFiles|) + [SaveCache]
      && Saved(state.optionData, files, state)
  {
    var optionData, localFiles;
    fault, optionData, pulled, localFiles, trace := StartPull(opts, session);
    if fault.Some? {
      return fault, RunState(optionData, map[], localFiles, files), pulled, trace;
    }
    var outOfRange, remoteFiles := CopyLocalTimes(optionData, localFiles, session.remoteFiles);
    if outOfRange {
      return Some(PathOutOfRange), RunState(optionData, remoteFiles, localFiles, files), pulled, trace;
    }
    var cacheFiles := FileCache.SaveCachedFiles(optionData, remoteFiles, localFiles, files);
    state := RunState(optionData, remoteFiles, localFiles, cacheFiles);
    assert forall e | e in trace + [SaveCache] :: PullEvent(e);
    trace := trace + [SaveCache];
  }

  // ---------------------------------------------------------------------------
  // Mode dispatch

  /** How the process ends: success, failure after an exception, or still
      polling when the sessions given to the model run out. */
  datatype ExitStatus = ExitSuccess | ExitFailure(fault: Fault) | StillRunning

  /** The pull branch of the dispatcher: the exit status of a pull run. */
  method PullMode(opts: EscapementOptions, pullSession: PullSession, files: FileCache.CacheFiles)
    returns (status: ExitStatus, trace: seq<Event>)
    requires opts.localDirectory != ""
    ensures |trace| > 0 && trace[0] == Connect(false, pullSession.connectStatus)
    ensures forall e | e in trace :: !e.PushFiles? && !e.DeleteFiles?
    ensures status != StillRunning
    ensures status == ExitSuccess ==> trace[|trace| - 1] == SaveCache
    ensures status.ExitFailure? ==> trace[|trace| - 1] != SaveCache
    ensures pullSession.connectStatus != LoggedIn ==>
      status == ExitFailure(ConnectFailed(pullSession.connectStatus)) && |trace| == 1
    ensures pullSession.connectStatus == LoggedIn && !pullSession.remoteDirectoryExists ==>
      status == ExitFailure(RemoteDirectoryMissing)
    ensures PullReady(pullSession) ==>
      && (status == ExitSuccess || status == ExitFailure(PathOutOfRange))
      && (status == ExitSuccess <==>
            LocalPathsMap(opts.(remoteDirectory := pullSession.workingDirectory),
                          if pullSession.remoteFiles != map[] then pullSession.localAfterPull else map[]))
  {
    var fault, state, pulled;
    fault, state, pulled, trace := Pull(opts, pullSession, files);
    status := if fault.Some? then ExitFailure(fault.value) else ExitSuccess;
    if fault.Some? {
      assert trace[|trace| - 1] in trace;
    }
    if PullReady(pullSession) {
      PulledExactlyWhenListed(pullSession.remoteFiles, pulled);
    }
  }

  /** The synchronise branch of the dispatcher: the exit status of the poll
      loop, tied to the passes it ran. */
  method SynchroniseMode(opts: EscapementOptions, sessions: seq<Session>, files: FileCache.CacheFiles)
    returns (status: ExitStatus, passes: seq<PassResult>, trace: seq<Event>)
    requires opts.localDirectory != "" && |sessions| > 0
    ensures |trace| > 0 && trace[0] == Connect(true, sessions[0].connectStatus)
    ensures forall e | e in trace :: !e.PullFiles?
    ensures 1 <= |passes| <= |sessions| && (opts.pollTime == 0 ==> |passes| == 1)
    ensures trace == Traces(passes)
    ensures forall j | 0 <= j < |passes| :: PassFacts(opts, files, sessions, passes, j)
    ensures forall j | 0 <= j < |passes| - 1 :: passes[j].fault.None?
    ensures status == ExitSuccess <==> opts.pollTime == 0 && passes[|passes| - 1].fault.None?
    ensures status.ExitFailure? <==> passes[|passes| - 1].fault.Some?
    ensures status.ExitFailure? ==> passes[|passes| - 1].fault == Some(status.fault)
    ensures status == StillRunning ==> opts.pollTime != 0
    ensures status == ExitSuccess ==> trace[|trace| - 1] == SaveCache
    ensures status.ExitFailure? ==> trace[|trace| - 1] != SaveCache
    ensures sessions[0].connectStatus != LoggedIn ==>
      status == ExitFailure(ConnectFailed(sessions[0].connectStatus)) && |trace| == 1
  {
    var outcome;
    outcome, passes, trace := SynchroniseFiles(opts, sessions, files);
    status := match outcome
      case Finished => ExitSuccess
      case Failed(fault) => ExitFailure(fault)
      case StillPolling => StillRunning;
    LastPassEndsTrace(opts, files, sessions, passes);
  }

  /** Escapement: pull when `pullFromServer` is set, synchronise otherwise; an
      exception from either ends the process with failure status, a normal
      return with success. */
  method Escapement(opts: EscapementOptions, sessions: seq<Session>, pullSession: PullSession,
                    files: FileCache.CacheFiles)
    returns (status: ExitStatus, passes: seq<PassResult>, trace: seq<Event>)
    requires opts.localDirectory != "" && |sessions| > 0
    ensures |trace| > 0 && trace[0].Connect? && trace[0].sslEnabled == !opts.pullFromServer
    ensures opts.pullFromServer ==> passes == [] && forall e | e in trace :: !e.PushFiles? && !e.DeleteFiles?
    ensures !opts.pullFromServer ==> forall e | e in trace :: !e.PullFiles?
    ensures status == ExitSuccess ==> trace[|trace| - 1] == SaveCache
    ensures status.ExitFailure? ==> trace[|trace| - 1] != SaveCache
    ensures status == StillRunning ==> !opts.pullFromServer && opts.pollTime != 0
    ensures opts.pullFromServer && pullSession.connectStatus != LoggedIn ==>
      status == ExitFailure(ConnectFailed(pullSession.connectStatus)) && |trace| == 1
    ensures opts.pullFromServer && pullSession.connectStatus == LoggedIn && !pullSession.remoteDirectoryExists ==>
      status == ExitFailure(RemoteDirectoryMissing)
    ensures opts.pullFromServer && PullReady(pullSession) ==>
      && (status == ExitSuccess || status == ExitFailure(PathOutOfRange))
      && (status == ExitSuccess <==>
            LocalPathsMap(opts.(remoteDirectory := pullSession.workingDirectory),
                          if pullSession.remoteFiles != map[] then pullSession.localAfterPull else map[]))
    ensures !opts.pullFromServer && sessions[0].connectStatus != LoggedIn ==>
      status == ExitFailure(ConnectFailed(sessions[0].connectStatus)) && |trace| == 1
    ensures !opts.pullFromServer ==>
      && 1 <= |passes| <= |sessions|
      && (opts.pollTime == 0 ==> |passes| == 1)
      && trace == Traces(passes)
      && (forall j | 0 <= j < |passes| :: PassFacts(opts, files, sessions, passes, j))
      && (forall j | 0 <= j < |passes| - 1 :: passes[j].fault.None?)
      && (status == ExitSuccess <==> opts.pollTime == 0 && passes[|passes| - 1].fault.None?)
      && (status.ExitFailure? <==> passes[|passes| - 1].fault.Some?)
      && (status.ExitFailure? ==> passes[|passes| - 1].fault == Some(status.fault))
  {
    if opts.pullFromServer {
      status, trace := PullMode(opts, pullSession, files);
      passes := [];
    } else {
      status, passes, trace := SynchroniseMode(opts, sessions, files);
    }
  }

  /** A list holding exactly the keys of a map is empty exactly when the map is. */
  lemma PulledExactlyWhenListed(remoteFiles: FileInfoMap, pulled: seq<string>)
    requires forall r :: r in pulled <==> r in remoteFiles
    ensures pulled != [] <==> remoteFiles != map[]
  {
    if pulled != [] {
      assert pulled[0] in remoteFiles;
    } else {
      assert remoteFiles.Keys == {};
    }
  }

  /** The run's calls begin with the first pass's and end with the last's;
      a first pass that cannot log in is the whole run. */
  lemma LastPassEndsTrace(opts: EscapementOptions, files: FileCache.CacheFiles, sessions: seq<Session>,
                          passes: seq<PassResult>)
    requires 0 < |passes| <= |sessions|
    requires forall j | 0 <= j < |passes| :: PassFacts(opts, files, sessions, passes, j)
    requires forall j | 0 <= j < |passes| - 1 :: passes[j].fault.None?
    ensures var t := Traces(passes); var last := passes[|passes| - 1];
      && |last.trace| > 0 && |t| > 0
      && t[0] == Connect(true, sessions[0].connectStatus)
      && t[|t| - 1] == last.trace[|last.trace| - 1]
      && (last.fault.None? ==> t[|t| - 1] == SaveCache)
      && (last.fault.Some? ==> t[|t| - 1] != SaveCache)
      && (sessions[0].connectStatus != LoggedIn ==>
            && |passes| == 1 && t == [Connect(true, sessions[0].connectStatus)]
            && passes[0].fault == Some(ConnectFailed(sessions[0].connectStatus)))
  {
    var last := passes[|passes| - 1];
    assert PassFacts(opts, files, sessions, passes, |passes| - 1);
    assert PassFacts(opts, files, sessions, passes, 0);
    TracesStart(passes);
    assert Traces(passes) == Traces(passes[..|passes| - 1]) + last.trace;
    if last.fault.Some? {
      assert last.trace[|last.trace| - 1] in last.trace;
    }
    if |passes| == 1 {
      assert Traces(passes) == Traces([]) + passes[0].trace;
    }
  }

  lemma {:induction false} TracesStart(passes: seq<PassResult>)
    requires 0 < |passes| && |passes[0].trace| > 0
    ensures |Traces(passes)| >= |passes[0].trace| && Traces(passes)[0] == passes[0].trace[0]
  {
    if |passes| > 1 {
      TracesStart(passes[..|passes| - 1]);
      assert passes[..|passes| - 1][0] == passes[0];
    } else {
      assert Traces(passes) == Traces([]) + passes[0].trace;
    }
  }
}
