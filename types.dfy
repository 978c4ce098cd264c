/** Shared vocabulary of the synchroniser: timestamps, the path-to-timestamp
    map (FileInfoMap), the run options and the in-order assignment of a list of
    (name, timestamp) pairs into such a map, which both the cache loader and the
    local directory scan perform. */
module Types {

  datatype Option<+T> = None | Some(value: T)

  /** The FTP client's date/time value. The synchroniser only ever compares two
      of them with a strict `<`, so it is modelled by its position on a line. */
  newtype DateTime = int

  /** The stamp a non-regular local entry (a directory) receives: local time of
      time_t 0. */
  const Epoch: DateTime := 0

  /** Path to last-modified time; keys are unique, iteration order unspecified. */
  type FileInfoMap = map<string, DateTime>

  /** The path separator used for both namespaces. */
  const ServerPathSep: char := '/'

  /** Run parameters as produced by the command-line / config component. */
  datatype EscapementOptions = EscapementOptions(
    serverName: string,
    serverPort: string,
    userName: string,
    userPassword: string,
    remoteDirectory: string,
    localDirectory: string,
    fileCache: string,
    configFileName: string,
    pollTime: int,
    pullFromServer: bool,
    override: bool)

  /** One `{Filename, Modified}` pair. */
  datatype FileEntry = FileEntry(filename: string, modified: DateTime)

  /** The names carried by a list of entries. */
  function Names(entries: seq<FileEntry>): set<string>
  {
    set i | 0 <= i < |entries| :: entries[i].filename
  }

  /** The map after `m[e.filename] = e.modified` for each entry e, in list order. */
  function Assign(m: FileInfoMap, entries: seq<FileEntry>): (r: FileInfoMap)
    ensures r.Keys == m.Keys + Names(entries)
    decreases |entries|
  {
    if entries == [] then m
    else
      var rest := Assign(m[entries[0].filename := entries[0].modified], entries[1..]);
      assert Names(entries) == {entries[0].filename} + Names(entries[1..]) by {
        forall x | x in Names(entries) ensures x in {entries[0].filename} + Names(entries[1..]) {
          var i :| 0 <= i < |entries| && entries[i].filename == x;
          if i > 0 { assert entries[1..][i - 1].filename == x; }
        }
      }
      rest
  }

  /** A later entry for a name overrides every earlier one. */
  lemma {:induction false} AssignLastWins(m: FileInfoMap, entries: seq<FileEntry>, i: nat)
    requires i < |entries|
    requires forall j | i < j < |entries| :: entries[j].filename != entries[i].filename
    ensures entries[i].filename in Assign(m, entries)
    ensures Assign(m, entries)[entries[i].filename] == entries[i].modified
    decreases |entries|
  {
    var m' := m[entries[0].filename := entries[0].modified];
    if i == 0 {
      AssignUntouched(m', entries[1..], entries[0].filename);
    } else {
      AssignLastWins(m', entries[1..], i - 1);
    }
  }

  /** A key no entry names keeps its value. */
  lemma {:induction false} AssignUntouched(m: FileInfoMap, entries: seq<FileEntry>, k: string)
    requires k in m && k !in Names(entries)
    ensures k in Assign(m, entries) && Assign(m, entries)[k] == m[k]
    decreases |entries|
  {
    if entries != [] {
      assert entries[0].filename in Names(entries);
      assert Names(entries[1..]) <= Names(entries) by {
        forall x | x in Names(entries[1..]) ensures x in Names(entries) {
          var i :| 0 <= i < |entries[1..]| && entries[1..][i].filename == x;
          assert entries[i + 1].filename == x;
        }
      }
      AssignUntouched(m[entries[0].filename := entries[0].modified], entries[1..], k);
    }
  }

  /** `entries` lists the map `m`: one entry per key, each with that key's
      timestamp, no name twice. */
  ghost predicate ListsExactly(entries: seq<FileEntry>, m: FileInfoMap)
  {
    && Names(entries) == m.Keys
    && (forall i | 0 <= i < |entries| :: entries[i].filename in m && entries[i].modified == m[entries[i].filename])
    && (forall i, j | 0 <= i < j < |entries| :: entries[i].filename != entries[j].filename)
  }

  /** Assigning a list that lists `listed` overlays `listed` on the map. */
  lemma AssignListing(m: FileInfoMap, entries: seq<FileEntry>, listed: FileInfoMap)
    requires ListsExactly(entries, listed)
    ensures Assign(m, entries) == m + listed
  {
    var r := Assign(m, entries);
    forall k | k in r ensures k in m + listed && r[k] == (m + listed)[k] {
      if k in listed {
        var i :| 0 <= i < |entries| && entries[i].filename == k;
        AssignLastWins(m, entries, i);
      } else {
        AssignUntouched(m, entries, k);
      }
    }
  }
}
