/** The JSON cache file: its document shape, writing the two file maps and the
    connection options into it, reading the remote map back, and overriding the
    connection options from it. */
module FileCache {
  import opened Types

  /** The six connection fields kept under "EscapementOptions". */
  datatype ConnectionFields = ConnectionFields(
    serverName: string,
    serverPort: string,
    userName: string,
    userPassword: string,
    remoteDirectory: string,
    localDirectory: string)

  /** A parsed cache document; a key absent from the JSON object is None. */
  datatype CacheDocument = CacheDocument(
    escapementOptions: Option<ConnectionFields>,
    remoteFiles: Option<seq<FileEntry>>,
    localFiles: Option<seq<FileEntry>>)

  /** The JSON files that can be opened, by name. A name absent from the map is
      a file the input stream cannot open, and the empty name never opens
      whatever the map holds. */
  type CacheFiles = map<string, CacheDocument>

  function ConnectionOf(o: EscapementOptions): ConnectionFields
  {
    ConnectionFields(o.serverName, o.serverPort, o.userName, o.userPassword, o.remoteDirectory, o.localDirectory)
  }

  /** Everything in the options that is not a connection field is the same. */
  ghost predicate SameNonConnection(o: EscapementOptions, o': EscapementOptions)
  {
    && o'.fileCache == o.fileCache
    && o'.configFileName == o.configFileName
    && o'.pollTime == o.pollTime
    && o'.pullFromServer == o.pullFromServer
    && o'.override == o.override
  }

  /** Overriding is enabled, the cache file opens and it has an
      "EscapementOptions" key. */
  predicate Overrides(optionData: EscapementOptions, files: CacheFiles)
  {
    optionData.override && optionData.fileCache != "" && optionData.fileCache in files
    && files[optionData.fileCache].escapementOptions.Some?
  }

  /** Overwrite the connection fields from the cache file when overriding is
      enabled, the file opens and it holds an "EscapementOptions" object. */
  method LoadEscapementOptions(optionData: EscapementOptions, files: CacheFiles)
    returns (optionData': EscapementOptions)
    ensures SameNonConnection(optionData, optionData')
    ensures !Overrides(optionData, files) ==> optionData' == optionData
    ensures Overrides(optionData, files)
            ==> ConnectionOf(optionData') == files[optionData.fileCache].escapementOptions.value
  {
    optionData' := optionData;
    if optionData.override {
      if optionData.fileCache != "" && optionData.fileCache in files {
        var completeJSONFile := files[optionData.fileCache];
        if completeJSONFile.escapementOptions.Some? {
          var escapementOptions := completeJSONFile.escapementOptions.value;
          optionData' := optionData'.(serverName := escapementOptions.serverName);
          optionData' := optionData'.(serverPort := escapementOptions.serverPort);
          optionData' := optionData'.(userName := escapementOptions.userName);
          optionData' := optionData'.(userPassword := escapementOptions.userPassword);
          optionData' := optionData'.(remoteDirectory := escapementOptions.remoteDirectory);
          optionData' := optionData'.(localDirectory := escapementOptions.localDirectory);
        }
      }
    }
  }

  /** The "RemoteFiles" array the loader would read: empty when there is no
      cache name, the file does not open or the key is missing. */
  function CachedRemoteEntries(fileCache: string, files: CacheFiles): seq<FileEntry>
  {
    if fileCache != "" && fileCache in files && files[fileCache].remoteFiles.Some?
    then files[fileCache].remoteFiles.value
    else []
  }

  /** Assign every "RemoteFiles" element of the cache file into `remoteFiles`,
      in array order. The local map is neither read nor written. */
  method LoadCachedFiles(fileCache: string, files: CacheFiles, remoteFiles: FileInfoMap)
    returns (remoteFiles': FileInfoMap)
    ensures fileCache == "" || fileCache !in files || files[fileCache].remoteFiles.None?
            ==> remoteFiles' == remoteFiles
    ensures remoteFiles' == Assign(remoteFiles, CachedRemoteEntries(fileCache, files))
  {
    remoteFiles' := remoteFiles;
    if fileCache != "" {
      if fileCache in files {
        var completeJSONFile := files[fileCache];
        if completeJSONFile.remoteFiles.Some? {
          var fileArray := completeJSONFile.remoteFiles.value;
          var i := 0;
          while i < |fileArray|
            invariant 0 <= i <= |fileArray|
            invariant Assign(remoteFiles', fileArray[i..]) == Assign(remoteFiles, fileArray)
          {
            assert fileArray[i..][1..] == fileArray[i + 1..];
            remoteFiles' := remoteFiles'[fileArray[i].filename := fileArray[i].modified];
            i := i + 1;
          }
        }
      }
    }
  }

  /** Build a JSON file array from a map: one element per entry, in the map's
      (unspecified) iteration order. */
  method ToFileArray(m: FileInfoMap) returns (fileArray: seq<FileEntry>)
    ensures ListsExactly(fileArray, m)
    ensures |fileArray| == |m|
  {
    fileArray := [];
    var rest := m.Keys;
    while rest != {}
      invariant ListsPart(fileArray, m, rest)
      invariant |fileArray| + |rest| == |m|
      decreases rest
    {
      var file :| file in rest;
      ListsPartStep(fileArray, m, rest, file);
      fileArray := fileArray + [FileEntry(file, m[file])];
      rest := rest - {file};
    }
  }

  /** `fileArray` lists `m` apart from the keys still in `rest`. */
  ghost predicate ListsPart(fileArray: seq<FileEntry>, m: FileInfoMap, rest: set<string>)
  {
    && rest <= m.Keys
    && Names(fileArray) == m.Keys - rest
    && (forall i | 0 <= i < |fileArray| ::
          fileArray[i].filename in m && fileArray[i].modified == m[fileArray[i].filename])
    && (forall i, j | 0 <= i < j < |fileArray| :: fileArray[i].filename != fileArray[j].filename)
  }

  lemma ListsPartStep(fileArray: seq<FileEntry>, m: FileInfoMap, rest: set<string>, file: string)
    requires ListsPart(fileArray, m, rest) && file in rest
    ensures ListsPart(fileArray + [FileEntry(file, m[file])], m, rest - {file})
  {
    var e := FileEntry(file, m[file]);
    assert file !in Names(fileArray);
    NamesAppend(fileArray, e);
    var s := fileArray + [e];
    forall i, j | 0 <= i < j < |s| ensures s[i].filename != s[j].filename {
      if j == |fileArray| {
        assert s[i].filename in Names(fileArray);
      }
    }
  }

  lemma NamesAppend(entries: seq<FileEntry>, e: FileEntry)
    ensures Names(entries + [e]) == Names(entries) + {e.filename}
  {
    var s := entries + [e];
    forall x | x in Names(s) ensures x in Names(entries) + {e.filename} {
      var i :| 0 <= i < |s| && s[i].filename == x;
      if i < |entries| { assert entries[i].filename == x; }
    }
    forall x | x in Names(entries) ensures x in Names(s) {
      var i :| 0 <= i < |entries| && entries[i].filename == x;
      assert s[i].filename == x;
    }
    assert s[|entries|].filename == e.filename;
  }

  /** Write the connection fields and both maps to the cache file; nothing is
      written when the cache name is empty. */
  method SaveCachedFiles(optionData: EscapementOptions, remoteFiles: FileInfoMap, localFiles: FileInfoMap,
                         files: CacheFiles)
    returns (files': CacheFiles)
    ensures optionData.fileCache == "" ==> files' == files
    ensures optionData.fileCache != "" ==>
      && optionData.fileCache in files'
      && files' == files[optionData.fileCache := files'[optionData.fileCache]]
      && Written(files'[optionData.fileCache], optionData, remoteFiles, localFiles)
  {
    files' := files;
    if optionData.fileCache != "" {
      var escapementOptions := ConnectionFields(
        optionData.serverName, optionData.serverPort, optionData.userName,
        optionData.userPassword, optionData.remoteDirectory, optionData.localDirectory);
      var remoteArray := ToFileArray(remoteFiles);
      var localArray := ToFileArray(localFiles);
      var completeJSONFile := CacheDocument(Some(escapementOptions), Some(remoteArray), Some(localArray));
      files' := files[optionData.fileCache := completeJSONFile];
    }
  }

  /** What a save writes: the six connection fields, and one element per entry
      of each map. */
  ghost predicate Written(doc: CacheDocument, optionData: EscapementOptions,
                          remoteFiles: FileInfoMap, localFiles: FileInfoMap)
  {
    && doc.escapementOptions == Some(ConnectionOf(optionData))
    && doc.remoteFiles.Some? && ListsExactly(doc.remoteFiles.value, remoteFiles)
    && doc.localFiles.Some? && ListsExactly(doc.localFiles.value, localFiles)
  }

  /** Loading what a save wrote into a remote map overlays the saved remote map;
      into an empty map it reproduces it. */
  lemma SaveLoadRoundTrip(doc: CacheDocument, optionData: EscapementOptions,
                          remoteFiles: FileInfoMap, localFiles: FileInfoMap, before: FileInfoMap)
    requires optionData.fileCache != ""
    requires Written(doc, optionData, remoteFiles, localFiles)
    ensures Assign(before, CachedRemoteEntries(optionData.fileCache, map[optionData.fileCache := doc]))
            == before + remoteFiles
    ensures Assign(map[], CachedRemoteEntries(optionData.fileCache, map[optionData.fileCache := doc]))
            == remoteFiles
  {
    AssignListing(before, doc.remoteFiles.value, remoteFiles);
    AssignListing(map[], doc.remoteFiles.value, remoteFiles);
    assert map[] + remoteFiles == remoteFiles;
  }

  /** Saving and then loading the options back, with override set, restores
      the six saved connection fields and nothing else. */
  method SaveLoadOptionsRoundTrip(saved: EscapementOptions, remoteFiles: FileInfoMap,
                                  localFiles: FileInfoMap, files: CacheFiles,
                                  current: EscapementOptions)
    returns (restored: EscapementOptions)
    requires saved.fileCache != "" && current.fileCache == saved.fileCache
    requires current.override
    ensures ConnectionOf(restored) == ConnectionOf(saved)
    ensures SameNonConnection(current, restored)
  {
    var files' := SaveCachedFiles(saved, remoteFiles, localFiles, files);
    restored := LoadEscapementOptions(current, files');
  }

  /** Saving and then loading into an empty remote map reproduces the remote
      map. */
  method SaveLoadRemoteRoundTrip(optionData: EscapementOptions, remoteFiles: FileInfoMap,
                                 localFiles: FileInfoMap, files: CacheFiles)
    returns (loaded: FileInfoMap)
    requires optionData.fileCache != ""
    ensures loaded == remoteFiles
  {
    var files' := SaveCachedFiles(optionData, remoteFiles, localFiles, files);
    loaded := LoadCachedFiles(optionData.fileCache, files', map[]);
    SaveLoadRoundTrip(files'[optionData.fileCache], optionData, remoteFiles, localFiles, map[]);
    assert files'[optionData.fileCache].remoteFiles == Some(CachedRemoteEntries(optionData.fileCache, files'));
  }
}
