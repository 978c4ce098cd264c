/** Path translation between the local and remote roots, and assembly of the
    two file maps at the start of a synchronise pass. */
module Files {
  import opened Types
  import FileCache

  /** True when the string's last character is the separator. */
  predicate EndsWithSep(s: string)
  {
    |s| > 0 && s[|s| - 1] == ServerPathSep
  }

  /** How many leading characters of a local path the local root takes up:
      its length, plus one for a separator the root does not itself end with. */
  function LocalPrefixLength(o: EscapementOptions): nat
  {
    |o.localDirectory| + (if EndsWithSep(o.localDirectory) then 0 else 1)
  }

  /** How many leading characters of a remote path are stripped: the remote
      root's length, plus one exactly when the LOCAL root ends in the separator. */
  function RemotePrefixLength(o: EscapementOptions): nat
  {
    |o.remoteDirectory| + (if EndsWithSep(o.localDirectory) then 1 else 0)
  }

  /** The local root followed by exactly one separator. */
  function LocalRoot(o: EscapementOptions): string
  {
    if EndsWithSep(o.localDirectory) then o.localDirectory else o.localDirectory + [ServerPathSep]
  }

  /** Local path to remote path: strip the local root by length and put the
      remote root and a separator in front. None is the out-of-range exception
      of a path shorter than the stripped prefix. The root itself is not
      compared with the path. */
  function LocalFileToRemote(o: EscapementOptions, localFilePath: string): (r: Option<string>)
    requires o.localDirectory != ""
    ensures r.Some? <==> LocalPrefixLength(o) <= |localFilePath|
    ensures r.Some? ==> |r.value| > |o.remoteDirectory| && r.value[..|o.remoteDirectory| + 1] == o.remoteDirectory + [ServerPathSep]
  {
    var localDirectoryLength := LocalPrefixLength(o);
    if localDirectoryLength <= |localFilePath|
    then Some(o.remoteDirectory + [ServerPathSep] + localFilePath[localDirectoryLength..])
    else None
  }

  /** Remote path to local path: strip by length and put the local root in
      front. None is the out-of-range exception. */
  function RemoteFileToLocal(o: EscapementOptions, remoteFilePath: string): (r: Option<string>)
    requires o.localDirectory != ""
    ensures r.Some? <==> RemotePrefixLength(o) <= |remoteFilePath|
    ensures r.Some? ==> |r.value| >= |o.localDirectory| && r.value[..|o.localDirectory|] == o.localDirectory
  {
    var remoteDirectoryLength := RemotePrefixLength(o);
    if remoteDirectoryLength <= |remoteFilePath|
    then Some(o.localDirectory + remoteFilePath[remoteDirectoryLength..])
    else None
  }

  /** A path under the local root goes to the remote root and back unchanged. */
  lemma LocalRoundTrip(o: EscapementOptions, rest: string)
    requires o.localDirectory != ""
    ensures LocalFileToRemote(o, LocalRoot(o) + rest) == Some(o.remoteDirectory + [ServerPathSep] + rest)
    ensures RemoteFileToLocal(o, o.remoteDirectory + [ServerPathSep] + rest) == Some(LocalRoot(o) + rest)
  {
    var p := LocalRoot(o) + rest;
    assert |LocalRoot(o)| == LocalPrefixLength(o);
    assert p[LocalPrefixLength(o)..] == rest;
    var r := o.remoteDirectory + [ServerPathSep] + rest;
    if EndsWithSep(o.localDirectory) {
      assert r[RemotePrefixLength(o)..] == rest;
    } else {
      assert r[RemotePrefixLength(o)..] == [ServerPathSep] + rest;
      assert o.localDirectory + ([ServerPathSep] + rest) == LocalRoot(o) + rest;
    }
  }

  /** Hence local-to-remote then remote-to-local is the identity under the
      local root, and the reverse composition is the identity under the remote
      root followed by a separator. */
  lemma RoundTrips(o: EscapementOptions, rest: string)
    requires o.localDirectory != ""
    ensures var p := LocalRoot(o) + rest;
      LocalFileToRemote(o, p).Some? && RemoteFileToLocal(o, LocalFileToRemote(o, p).value) == Some(p)
    ensures var r := o.remoteDirectory + [ServerPathSep] + rest;
      RemoteFileToLocal(o, r).Some? && LocalFileToRemote(o, RemoteFileToLocal(o, r).value) == Some(r)
  {
    LocalRoundTrip(o, rest);
  }

  /** Only the length of the local root matters: any path long enough is
      translated as though the root were its first characters, so two paths that
      differ only inside that prefix collide. */
  lemma LocalMappingIgnoresPrefix(o: EscapementOptions, p: string, q: string)
    requires o.localDirectory != ""
    requires LocalPrefixLength(o) <= |p| && LocalPrefixLength(o) <= |q|
    requires p[LocalPrefixLength(o)..] == q[LocalPrefixLength(o)..]
    ensures LocalFileToRemote(o, p) == LocalFileToRemote(o, q)
  {
  }

  /** Local paths under the local root never collide. */
  lemma LocalMappingInjectiveUnderRoot(o: EscapementOptions, p: string, q: string)
    requires o.localDirectory != ""
    requires |LocalRoot(o)| <= |p| && p[..|LocalRoot(o)|] == LocalRoot(o)
    requires |LocalRoot(o)| <= |q| && q[..|LocalRoot(o)|] == LocalRoot(o)
    requires LocalFileToRemote(o, p) == LocalFileToRemote(o, q)
    ensures p == q
  {
    var k := |LocalRoot(o)|;
    var r := o.remoteDirectory + [ServerPathSep];
    assert p[k..] == LocalFileToRemote(o, p).value[|r|..];
    assert q[k..] == LocalFileToRemote(o, q).value[|r|..];
    assert p == p[..k] + p[k..];
    assert q == q[..k] + q[k..];
  }

  /** The remote paths and timestamps the server reports for `fileList`. */
  function ListingTimes(fileList: seq<string>, modifiedTime: string -> DateTime): FileInfoMap
  {
    map file | file in fileList :: modifiedTime(file)
  }

  /** Ask the server for each listed file's modified time and collect the
      answers in a map. */
  method GetRemoteFileListDateTime(fileList: seq<string>, modifiedTime: string -> DateTime)
    returns (fileInfoMap: FileInfoMap)
    ensures fileInfoMap.Keys == set file | file in fileList
    ensures forall file | file in fileInfoMap :: fileInfoMap[file] == modifiedTime(file)
  {
    fileInfoMap := map[];
    for i := 0 to |fileList|
      invariant fileInfoMap.Keys == set file | file in fileList[..i]
      invariant forall file | file in fileInfoMap :: fileInfoMap[file] == modifiedTime(file)
    {
      assert fileList[..i + 1] == fileList[..i] + [fileList[i]];
      fileInfoMap := fileInfoMap[fileList[i] := modifiedTime(fileList[i])];
    }
    assert fileList[..|fileList|] == fileList;
  }

  /** One entry of the recursive local listing, with what the filesystem says
      about it. */
  datatype LocalEntry = LocalEntry(path: string, isRegularFile: bool, lastWriteTime: DateTime)

  /** The timestamp a local entry is recorded with: a regular file's last write
      time, the epoch for anything else. */
  function LocalStamp(e: LocalEntry): DateTime
  {
    if e.isRegularFile then e.lastWriteTime else Epoch
  }

  function Stamped(listing: seq<LocalEntry>): (entries: seq<FileEntry>)
    ensures |entries| == |listing|
    ensures forall i | 0 <= i < |listing| :: entries[i] == FileEntry(listing[i].path, LocalStamp(listing[i]))
  {
    seq(|listing|, i requires 0 <= i < |listing| => FileEntry(listing[i].path, LocalStamp(listing[i])))
  }

  /** What the pass needs from the server and the disk to build its maps. */
  datatype Listings = Listings(
    remoteListing: seq<string>,
    modifiedTime: string -> DateTime,
    localListing: seq<LocalEntry>)

  /** Load the remote map from the cache, fall back to the live remote listing
      when that leaves it empty, then record every listed local path. */
  method LoadFilesBeforeSynchronise(optionData: EscapementOptions, files: FileCache.CacheFiles,
                                    remoteFiles: FileInfoMap, localFiles: FileInfoMap, listings: Listings)
    returns (remoteFiles': FileInfoMap, localFiles': FileInfoMap, listedRemote: bool)
    ensures var cached := Assign(remoteFiles, FileCache.CachedRemoteEntries(optionData.fileCache, files));
      && (listedRemote <==> cached == map[])
      && remoteFiles' == (if listedRemote then ListingTimes(listings.remoteListing, listings.modifiedTime) else cached)
    ensures localFiles'.Keys == localFiles.Keys + (set e | e in listings.localListing :: e.path)
    ensures localFiles' == Assign(localFiles, Stamped(listings.localListing))
  {
    remoteFiles' := FileCache.LoadCachedFiles(optionData.fileCache, files, remoteFiles);
    listedRemote := remoteFiles' == map[];
    if listedRemote {
      remoteFiles' := GetRemoteFileListDateTime(listings.remoteListing, listings.modifiedTime);
    }
    localFiles' := localFiles;
    var fileList := listings.localListing;
    for i := 0 to |fileList|
      invariant Assign(localFiles', Stamped(fileList)[i..]) == Assign(localFiles, Stamped(fileList))
    {
      var file := fileList[i];
      var localModifiedTime := Epoch;
      if file.isRegularFile {
        localModifiedTime := file.lastWriteTime;
      }
      assert Stamped(fileList)[i..][1..] == Stamped(fileList)[i + 1..];
      localFiles' := localFiles'[file.path := localModifiedTime];
    }
    assert Names(Stamped(fileList)) == set e | e in fileList :: e.path by {
      forall x | x in Names(Stamped(fileList)) ensures x in set e | e in fileList :: e.path {
        var i :| 0 <= i < |fileList| && Stamped(fileList)[i].filename == x;
        assert fileList[i] in fileList;
      }
      forall x | x in (set e | e in fileList :: e.path) ensures x in Names(Stamped(fileList)) {
        var e :| e in fileList && e.path == x;
        var i :| 0 <= i < |fileList| && fileList[i] == e;
        assert Stamped(fileList)[i].filename == x;
      }
    }
  }

  /** A listed local path is recorded with the stamp of its last listing entry,
      and with the epoch when it is not a regular file. */
  lemma LocalScanStamps(localFiles: FileInfoMap, listing: seq<LocalEntry>, i: nat)
    requires i < |listing|
    requires forall j | i < j < |listing| :: listing[j].path != listing[i].path
    ensures Assign(localFiles, Stamped(listing))[listing[i].path] == LocalStamp(listing[i])
    ensures !listing[i].isRegularFile ==> Assign(localFiles, Stamped(listing))[listing[i].path] == Epoch
  {
    AssignLastWins(localFiles, Stamped(listing), i);
  }

  /** A key that was already there and is not listed keeps its stamp. */
  lemma LocalScanKeeps(localFiles: FileInfoMap, listing: seq<LocalEntry>, k: string)
    requires k in localFiles && forall e | e in listing :: e.path != k
    ensures Assign(localFiles, Stamped(listing))[k] == localFiles[k]
  {
    AssignUntouched(localFiles, Stamped(listing), k);
  }
}
