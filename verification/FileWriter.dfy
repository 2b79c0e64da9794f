/** The writer object of a measurement directory. Each method is proved against the
    state machine of module Recording
    (contrib/ecalhdf5/src/eh5_meas_file_writer_v5.cpp, _v6.cpp). */
module FileWriter {
  import opened Strings
  import opened Ordering
  import opened Hdf5
  import opened Entries
  import opened Layout
  import opened Recording

  /** Every name followed by a comma, as the closing loop collects them. */
  function WithCommas(names: seq<Str>): Str {
    if names == [] then [] else names[0] + [','] + WithCommas(names[1..])
  }

  lemma {:induction false} WithCommasAppend(names: seq<Str>, n: Str)
    ensures WithCommas(names + [n]) == WithCommas(names) + n + [',']
  {
    if names != [] {
      assert (names + [n])[1..] == names[1..] + [n];
      WithCommasAppend(names[1..], n);
    }
  }

  /** Dropping the last comma leaves the joined list. */
  lemma {:induction false} DropLastComma(names: seq<Str>)
    requires names != []
    ensures WithCommas(names) == Join(names, ',') + [',']
  {
    if |names| > 1 {
      DropLastComma(names[1..]);
    } else {
      assert WithCommas(names[1..]) == [];
    }
  }

  method ChannelList(names: seq<Str>) returns (list: Str)
    ensures list == Join(names, ',')
  {
    list := [];
    for i := 0 to |names|
      invariant list == WithCommas(names[..i])
    {
      assert names[..i + 1] == names[..i] + [names[i]];
      WithCommasAppend(names[..i], names[i]);
      list := list + (names[i] + [',']);
    }
    assert names[..|names|] == names;
    if names != [] {
      DropLastComma(names);
    }
    if list != [] && list[|list| - 1] == ',' {
      list := list[..|list| - 1];
    }
  }

  /** The directory the files go to. */
  class Directory {
    var files: map<Str, File>

    constructor ()
      ensures files == map[]
    {
      files := map[];
    }
  }

  class MeasFileWriter {
    const version: Version
    const disk: Directory
    var outputDir: Str
    var baseName: Str
    var maxSizePerFile: nat
    var fileSplitCounter: int
    var entriesCounter: nat
    var channels: Slots
    var isOpen: bool

    /** The state of Recording this object and its directory are in. */
    ghost function State(): Writer
      reads this, disk
    {
      Writer(version, outputDir, baseName, maxSizePerFile, fileSplitCounter, entriesCounter, channels, isOpen, disk.files)
    }

    constructor (version: Version, disk: Directory, outputDir: Str, baseName: Str, maxSizePerFile: nat)
      ensures State() == Fresh(version, outputDir, baseName, maxSizePerFile).(disk := disk.files)
      ensures this.disk == disk && Recording.Valid(State())
    {
      this.version, this.disk := version, disk;
      this.outputDir, this.baseName, this.maxSizePerFile := outputDir, baseName, maxSizePerFile;
      fileSplitCounter, entriesCounter, channels, isOpen := -1, 0, map[], false;
    }

    method SetChannelDataTypeInformation(channel: Channel, info: Info)
      modifies this`channels
      ensures State() == SetInfo(old(State()), channel, info)
    {
      var key := if version == V5 then Channel(channel.name, 0) else channel;
      if key !in channels {
        channels := channels[key := Slot(Info([], [], []), [])];
      }
      channels := channels[key := channels[key].(info := if version == V5 then KeptV5(info) else info)];
    }

    /** The table of contents of a V6 file, channel name by channel name and id by id. */
    method CreateTablesV6(f: File) returns (g: File, list: Str)
      ensures g == DumpNames(f, Sorted(Names(channels)), channels)
      ensures list == Join(Sorted(Names(channels)), ',')
    {
      var names := Sorted(Names(channels));
      g := f;
      for i := 0 to |names|
        invariant DumpNames(g, names[i..], channels) == DumpNames(f, names, channels)
      {
        var ids := SortedIds(Ids(channels, names[i]));
        ghost var before := g;
        for j := 0 to |ids|
          invariant forall id | id in ids :: id < TWO64 && Channel(names[i], id) in channels
          invariant DumpIds(g, names[i], ids[j..], channels) == DumpIds(before, names[i], ids, channels)
        {
          var c := Channel(names[i], ids[j]);
          assert ids[j..][0] == ids[j] && ids[j..][1..] == ids[j + 1..];
          g := DumpChannel(g, c, channels[c]);
        }
        assert names[i..][0] == names[i] && names[i..][1..] == names[i + 1..];
      }
      list := ChannelList(names);
    }

    /** The tables of a V5 file; only channels whose table was created are listed. */
    method CreateTablesV5(f: File) returns (g: File, list: Str)
      ensures g == DumpTables(f, Sorted(Names(channels)), channels).0
      ensures list == Join(DumpTables(f, Sorted(Names(channels)), channels).1, ',')
    {
      var names := Sorted(Names(channels));
      g := f;
      var listed: seq<Str> := [];
      assert names[0..] == names && forall rest: seq<Str> :: listed + rest == rest;
      for i := 0 to |names|
        invariant var (h, rest) := DumpTables(g, names[i..], channels); (h, listed + rest) == DumpTables(f, names, channels)
      {
        var c := Channel(names[i], 0);
        assert names[i..][0] == names[i] && names[i..][1..] == names[i + 1..];
        if c in channels && channels[c].entries != [] && CanCreate(g, Resolve(names[i])) {
          ghost var rest := DumpTables(Put(g, Resolve(names[i]), TableOf(channels[c])), names[i + 1..], channels).1;
          assert listed + ([names[i]] + rest) == (listed + [names[i]]) + rest;
          g := Put(g, Resolve(names[i]), TableOf(channels[c]));
          listed := listed + [names[i]];
        }
      }
      assert names[|names|..] == [];
      assert listed + [] == listed;
      list := ChannelList(listed);
    }

    method Close() returns (ok: bool)
      requires Recording.Valid(State())
      modifies this, disk
      ensures State() == CloseFile(old(State())) && ok == old(isOpen)
    {
      if !isOpen {
        return false;
      }
      var path := FilePath(outputDir, baseName, fileSplitCounter);
      var f := disk.files[path];
      var list: Str;
      if version == V6 {
        f, list := CreateTablesV6(f);
      } else {
        f, list := CreateTablesV5(f);
      }
      disk.files := disk.files[path := SetAttribute(f, CHANNELS, list)];
      channels := map c | c in channels :: channels[c].(entries := []);
      isOpen := false;
      return true;
    }

    method Create(made: Outcome) returns (ok: bool)
      requires Recording.Valid(State())
      modifies this, disk
      ensures (State(), ok) == CreateFile(old(State()), made)
    {
      if outputDir == [] {
        return false;
      }
      if made.NoDirectory? {
        return false;
      }
      if baseName == [] {
        return false;
      }
      if isOpen {
        var closed := Close();
        if !closed {
          return false;
        }
      }
      fileSplitCounter := fileSplitCounter + 1;
      var filePath := outputDir + ['/'] + baseName;
      if fileSplitCounter > 0 {
        filePath := filePath + (['_'] + Decimal(fileSplitCounter));
      }
      filePath := filePath + EXTENSION;
      assert filePath == FilePath(outputDir, baseName, fileSplitCounter);
      if made.Opened? {
        disk.files := disk.files[filePath := NewFile(version)];
        isOpen := true;
      } else {
        fileSplitCounter := fileSplitCounter - 1;
      }
      ok := made.Opened?;
    }

    /** The part of `AddEntryToFile` after a file with room is open. */
    method WriteEntryData(entry: WriteEntry)
      requires Recording.Valid(State()) && isOpen
      modifies this, disk
      ensures State() == Append(old(State()), entry)
    {
      var path := FilePath(outputDir, baseName, fileSplitCounter);
      disk.files := disk.files[path := Put(disk.files[path], Resolve(Decimal(entriesCounter)), Payload(entry.data))];
      var key := if version == V5 then Channel(entry.channel.name, 0) else entry.channel;
      var slot := if key in channels then channels[key] else Slot(Info([], [], []), []);
      var row := EntryInfo(entry.rcv, entriesCounter, entry.clock, entry.snd, entry.sender);
      channels := channels[key := slot.(entries := slot.entries + [row])];
      entriesCounter := entriesCounter + 1;
    }

    method AddEntryToFile(entry: WriteEntry, answers: Answers) returns (ok: bool)
      requires Recording.Valid(State())
      modifies this, disk
      ensures (State(), ok) == AddEntry(old(State()), entry, answers)
    {
      hide CloseFile, CreateFile, Append, FilePath;
      if !isOpen {
        var created := Create(answers.first);
      }
      if !isOpen {
        return false;
      }
      if !((answers.fileSize + |entry.data|) % TWO64 <= maxSizePerFile) {
        var created := Create(answers.next);
        if !created {
          return false;
        }
      }
      WriteEntryData(entry);
      return true;
    }
  }
}
