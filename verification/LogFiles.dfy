/**
 The files of TypedConfigurations (external/easylogging++): insertFile with its three maps. Streams are shared by name
 through a map that outlives the object, and std::map::insert leaves a key that is there alone.
 */
module LogFiles {

  import opened Levels
  import opened Options
  import opened ConfigurationStore

  /** A null pointer, or the one stream that was opened under a name. */
  datatype Stream = NoStream | Open(name: string)

  /** What insertFile asks of the outside: the name with its date filled in, and whether that file can be opened. */
  datatype Disk = Disk(resolve: string -> string, opens: string -> bool)

  datatype Files = Files(names: map<Level, string>, streams: map<Level, Stream>, references: map<string, Stream>)

  /** Before the second loop of `build`: a null stream for Global, and the streams that others have opened. */
  function FilesAtStart(references: map<string, Stream>): Files {
    Files(map[], map[Global := NoStream], references)
  }

  predicate NamesFile(c: Configuration) {
    c.configurationType == Filename && c.value != ""
  }

  /** std::map::insert */
  function Added<K, V>(m: map<K, V>, k: K, v: V): map<K, V> {
    if k in m then m else m[k := v]
  }

  function Opened(name: string, disk: Disk): Stream {
    if disk.opens(name) then Open(name) else NoStream
  }

  /** The stream that insertFile looks at when it decides about ToFile. */
  function Taken(files: Files, name: string, disk: Disk): Stream {
    if name in files.references then files.references[name] else Opened(name, disk)
  }

  function LevelFor(files: Files, level: Level): Level {
    if files.names == map[] && files.streams == map[] then Global else level
  }

  /** The maps after insertFile: what is recorded under a new name is what the map of streams holds by then. */
  function Inserted(files: Files, level: Level, name: string, disk: Disk): Files {
    var l := LevelFor(files, level);
    var streams := Added(files.streams, l, Taken(files, name, disk));
    Files(Added(files.names, l, name), streams, Added(files.references, name, streams[l]))
  }

  /** The maps after the second loop of `build`. */
  function FilesAfter(files: Files, list: Entries, disk: Disk): Files {
    if list == [] then files
    else
      var before, last := FilesAfter(files, list[..|list| - 1], disk), list[|list| - 1];
      if NamesFile(last) then Inserted(before, last.level, disk.resolve(last.value), disk) else before
  }

  lemma FilesNext(files: Files, list: Entries, i: nat, disk: Disk)
    requires i < |list|
    ensures FilesAfter(files, list[..i + 1], disk) ==
            if NamesFile(list[i]) then Inserted(FilesAfter(files, list[..i], disk), list[i].level, disk.resolve(list[i].value), disk)
            else FilesAfter(files, list[..i], disk)
  {
    assert list[..i + 1][..i] == list[..i];
  }

  // ---------- What the maps come to ----------

  /** What stands under a name in the end, where `first` is the name of Global's file: a stream that Global has opened
      is lost, since Global has its null stream already. */
  function Recorded(name: string, references: map<string, Stream>, first: Option<string>, disk: Disk): Stream {
    if name in references then references[name]
    else if first == Some(name) then NoStream
    else Opened(name, disk)
  }

  /** The stream that insertFile gets for a level. */
  function StreamFor(level: Level, name: string, references: map<string, Stream>, first: Option<string>, disk: Disk): Stream {
    if level == Global && name !in references then Opened(name, disk) else Recorded(name, references, first, disk)
  }

  ghost predicate IsNamed(list: Entries, name: string, disk: Disk) {
    exists i :: 0 <= i < |list| && NamesFile(list[i]) && disk.resolve(list[i].value) == name
  }

  ghost predicate HasFile(list: Entries, l: Level) {
    exists i :: 0 <= i < |list| && NamesFile(list[i]) && list[i].level == l
  }

  /** Global's file comes before all others, and `first` is its name. */
  ghost predicate GlobalOpensFirst(list: Entries, first: Option<string>, disk: Disk) {
    forall i :: 0 <= i < |list| && NamesFile(list[i]) ==>
      if list[i].level == Global then first == Some(disk.resolve(list[i].value))
      else first.Some? ==> HasFile(list[..i], Global)
  }

  /** The maps in terms of the entries seen. */
  ghost predicate Tracks(files: Files, list: Entries, references: map<string, Stream>, first: Option<string>, disk: Disk) {
    && KeysTracked(files, list)
    && ReferencesTracked(files.references, list, references, first, disk)
    && forall i :: 0 <= i < |list| && NamesFile(list[i]) ==> EntryTracked(files, list[i], references, first, disk)
  }

  ghost predicate KeysTracked(files: Files, list: Entries) {
    && Global in files.streams && files.streams[Global].NoStream?
    && (forall l :: l in files.streams && l != Global ==> HasFile(list, l))
    && (forall l :: l in files.names ==> HasFile(list, l))
  }

  ghost predicate ReferencesTracked(now: map<string, Stream>, list: Entries, references: map<string, Stream>,
                                    first: Option<string>, disk: Disk) {
    && (forall n :: n in now <==> n in references || IsNamed(list, n, disk))
    && (forall n :: n in now ==> now[n] == Recorded(n, references, first, disk))
  }

  ghost predicate EntryTracked(files: Files, c: Configuration, references: map<string, Stream>, first: Option<string>,
                               disk: Disk) {
    var name := disk.resolve(c.value);
    && c.level in files.names && files.names[c.level] == name
    && c.level in files.streams
    && files.streams[c.level] == if c.level == Global then NoStream else Recorded(name, references, first, disk)
  }

  lemma NamedNext(list: Entries, name: string, disk: Disk)
    requires list != []
    ensures var last := list[|list| - 1];
            IsNamed(list, name, disk) <==>
            IsNamed(list[..|list| - 1], name, disk) || (NamesFile(last) && disk.resolve(last.value) == name)
  {
    var before := list[..|list| - 1];
    if i :| 0 <= i < |before| && NamesFile(before[i]) && disk.resolve(before[i].value) == name {
      assert list[i] == before[i];
    }
    if i :| 0 <= i < |list| && NamesFile(list[i]) && disk.resolve(list[i].value) == name {
      assert i < |before| ==> before[i] == list[i];
    }
  }

  lemma HasFileNext(list: Entries, l: Level)
    requires list != []
    ensures var last := list[|list| - 1];
            HasFile(list, l) <==> HasFile(list[..|list| - 1], l) || (NamesFile(last) && last.level == l)
  {
    var before := list[..|list| - 1];
    if i :| 0 <= i < |before| && NamesFile(before[i]) && before[i].level == l {
      assert list[i] == before[i];
    }
    if i :| 0 <= i < |list| && NamesFile(list[i]) && list[i].level == l {
      assert i < |before| ==> before[i] == list[i];
    }
  }

  lemma KeyIsNew(list: Entries, l: Level)
    requires UniqueKeys(list) && list != [] && NamesFile(list[|list| - 1]) && list[|list| - 1].level == l
    ensures !HasFile(list[..|list| - 1], l)
  {
    var before, n := list[..|list| - 1], |list| - 1;
    forall i | 0 <= i < |before| ensures !(NamesFile(before[i]) && before[i].level == l) {
      assert before[i] == list[i] && !(Hit(list[n], list[i].level, list[i].configurationType));
    }
  }

  lemma PrefixOpensFirst(list: Entries, first: Option<string>, disk: Disk)
    requires list != [] && GlobalOpensFirst(list, first, disk)
    ensures GlobalOpensFirst(list[..|list| - 1], first, disk)
  {
    var before := list[..|list| - 1];
    forall i | 0 <= i < |before| && NamesFile(before[i])
      ensures if before[i].level == Global then first == Some(disk.resolve(before[i].value))
              else first.Some? ==> HasFile(before[..i], Global)
    {
      assert before[i] == list[i] && before[..i] == list[..i];
    }
  }

  lemma FileStays(list: Entries, i: nat, n: nat, l: Level)
    requires i <= n <= |list|
    ensures HasFile(list[..i], l) ==> HasFile(list[..n], l)
  {
    if g :| 0 <= g < i && NamesFile(list[..i][g]) && list[..i][g].level == l {
      assert list[..n][g] == list[..i][g];
    }
  }

  lemma NothingBeforeGlobal(list: Entries, first: Option<string>, disk: Disk, name: string)
    requires UniqueKeys(list) && list != [] && GlobalOpensFirst(list, first, disk)
    requires NamesFile(list[|list| - 1]) && list[|list| - 1].level == Global
    ensures !IsNamed(list[..|list| - 1], name, disk)
  {
    var before := list[..|list| - 1];
    KeyIsNew(list, Global);
    forall i | 0 <= i < |before| ensures !NamesFile(before[i]) {
      assert before[i] == list[i] && before == list[..|list| - 1];
      FileStays(list, i, |list| - 1, Global);
    }
  }

  lemma GlobalIsRecorded(list: Entries, first: Option<string>, disk: Disk)
    requires list != [] && GlobalOpensFirst(list, first, disk) && first.Some?
    requires NamesFile(list[|list| - 1]) && list[|list| - 1].level != Global
    ensures IsNamed(list[..|list| - 1], first.value, disk)
  {
    var before, n := list[..|list| - 1], |list| - 1;
    assert HasFile(list[..n], Global);
    var g :| 0 <= g < n && NamesFile(before[g]) && before[g].level == Global;
    assert list[g] == before[g];
  }

  lemma TakenIs(now: map<string, Stream>, list: Entries, references: map<string, Stream>, first: Option<string>, disk: Disk,
                c: Configuration, name: string)
    requires UniqueKeys(list) && list != [] && GlobalOpensFirst(list, first, disk)
    requires c == list[|list| - 1] && NamesFile(c) && name == disk.resolve(c.value)
    requires ReferencesTracked(now, list[..|list| - 1], references, first, disk)
    ensures (if name in now then now[name] else Opened(name, disk)) == StreamFor(c.level, name, references, first, disk)
    ensures name !in now ==> Recorded(name, references, first, disk) == if c.level == Global then NoStream else Opened(name, disk)
  {
    if c.level == Global {
      NothingBeforeGlobal(list, first, disk, name);
    } else if first.Some? {
      GlobalIsRecorded(list, first, disk);
    }
  }

  lemma ReferencesNext(now: map<string, Stream>, list: Entries, references: map<string, Stream>, first: Option<string>,
                       disk: Disk, name: string, stream: Stream)
    requires list != [] && NamesFile(list[|list| - 1]) && name == disk.resolve(list[|list| - 1].value)
    requires ReferencesTracked(now, list[..|list| - 1], references, first, disk)
    requires name !in now ==> stream == Recorded(name, references, first, disk)
    ensures ReferencesTracked(Added(now, name, stream), list, references, first, disk)
  {
    forall n ensures IsNamed(list, n, disk) <==> IsNamed(list[..|list| - 1], n, disk) || n == name { NamedNext(list, n, disk); }
  }

  lemma KeysNext(files: Files, list: Entries, c: Configuration, name: string, disk: Disk)
    requires list != [] && c == list[|list| - 1] && NamesFile(c) && KeysTracked(files, list[..|list| - 1])
    ensures KeysTracked(Inserted(files, c.level, name, disk), list)
  {
    forall l ensures HasFile(list, l) <==> HasFile(list[..|list| - 1], l) || l == c.level { HasFileNext(list, l); }
  }

  lemma EntryStaysTracked(files: Files, level: Level, name: string, c: Configuration, references: map<string, Stream>,
                          first: Option<string>, disk: Disk)
    requires EntryTracked(files, c, references, first, disk) && LevelFor(files, level) == level
    ensures EntryTracked(Inserted(files, level, name, disk), c, references, first, disk)
  {}

  lemma NewEntryIsTracked(files: Files, c: Configuration, name: string, references: map<string, Stream>,
                          first: Option<string>, disk: Disk)
    requires name == disk.resolve(c.value) && LevelFor(files, c.level) == c.level && c.level !in files.names
    requires if c.level == Global then c.level in files.streams && files.streams[c.level].NoStream?
             else c.level !in files.streams && Taken(files, name, disk) == Recorded(name, references, first, disk)
    ensures EntryTracked(Inserted(files, c.level, name, disk), c, references, first, disk)
  {}

  lemma InsertedTracks(files: Files, list: Entries, references: map<string, Stream>, first: Option<string>, disk: Disk,
                       c: Configuration, name: string)
    requires UniqueKeys(list) && list != [] && GlobalOpensFirst(list, first, disk)
    requires c == list[|list| - 1] && NamesFile(c) && name == disk.resolve(c.value)
    requires Tracks(files, list[..|list| - 1], references, first, disk)
    ensures LevelFor(files, c.level) == c.level && Taken(files, name, disk) == StreamFor(c.level, name, references, first, disk)
    ensures Tracks(Inserted(files, c.level, name, disk), list, references, first, disk)
  {
    var next := Inserted(files, c.level, name, disk);
    TakenIs(files.references, list, references, first, disk, c, name);
    assert KeysTracked(next, list) by { KeysNext(files, list, c, name, disk); }
    KeyIsNew(list, c.level);
    assert ReferencesTracked(next.references, list, references, first, disk) by {
      ReferencesNext(files.references, list, references, first, disk, name, next.streams[c.level]);
    }
    forall i | 0 <= i < |list| && NamesFile(list[i]) ensures EntryTracked(next, list[i], references, first, disk) {
      EntryIsTracked(files, list, references, first, disk, c, name, i);
    }
  }

  lemma EntryIsTracked(files: Files, list: Entries, references: map<string, Stream>, first: Option<string>, disk: Disk,
                       c: Configuration, name: string, i: nat)
    requires list != [] && c == list[|list| - 1] && NamesFile(c) && name == disk.resolve(c.value)
    requires Tracks(files, list[..|list| - 1], references, first, disk) && !HasFile(list[..|list| - 1], c.level)
    requires LevelFor(files, c.level) == c.level
    requires c.level != Global ==> Taken(files, name, disk) == Recorded(name, references, first, disk)
    requires i < |list| && NamesFile(list[i])
    ensures EntryTracked(Inserted(files, c.level, name, disk), list[i], references, first, disk)
  {
    if i < |list| - 1 {
      assert list[..|list| - 1][i] == list[i];
      EntryStaysTracked(files, c.level, name, list[i], references, first, disk);
    } else {
      NewEntryIsTracked(files, c, name, references, first, disk);
    }
  }

  lemma {:induction false} FilesTracked(list: Entries, references: map<string, Stream>, first: Option<string>, disk: Disk)
    requires UniqueKeys(list) && GlobalOpensFirst(list, first, disk)
    ensures Tracks(FilesAfter(FilesAtStart(references), list, disk), list, references, first, disk)
    decreases |list|
  {
    if list != [] {
      var before, c := list[..|list| - 1], list[|list| - 1];
      PrefixOpensFirst(list, first, disk);
      FilesTracked(before, references, first, disk);
      if NamesFile(c) {
        InsertedTracks(FilesAfter(FilesAtStart(references), before, disk), list, references, first, disk, c, disk.resolve(c.value));
      } else {
        SkippedTracks(FilesAfter(FilesAtStart(references), before, disk), list, references, first, disk);
      }
    }
  }

  lemma SkippedTracks(files: Files, list: Entries, references: map<string, Stream>, first: Option<string>, disk: Disk)
    requires list != [] && !NamesFile(list[|list| - 1]) && Tracks(files, list[..|list| - 1], references, first, disk)
    ensures Tracks(files, list, references, first, disk)
  {
    var before := list[..|list| - 1];
    forall n ensures IsNamed(list, n, disk) <==> IsNamed(before, n, disk) { NamedNext(list, n, disk); }
    forall l ensures HasFile(list, l) <==> HasFile(before, l) { HasFileNext(list, l); }
    forall i | 0 <= i < |list| && NamesFile(list[i]) ensures EntryTracked(files, list[i], references, first, disk) {
      assert before[i] == list[i];
    }
  }
}
