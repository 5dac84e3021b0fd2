// The body of main after argument parsing and MIDI loading (midi2.cpp:191-307):
// copy the reference sample, collect the note-ons of the chosen track, render
// one pitch-shifted variant per distinct pitch, write the manifest, run the
// mixer, and delete the intermediate samples.
//
// The outside world is abstract. files is the set of paths that exist;
// shell gives the exit status of each command line passed to system(); a
// pitch-shift or mixer command that exits with status 0 has written its
// output file; locked is the set of paths remove() cannot delete; showTime
// stands for std::to_string of a float start time.
module Pipeline {
  import opened Ordered
  import opened Notes
  import opened Variants
  import opened Manifest
  import opened Cleanup

  /** Output file of the mixer (midi2.cpp:296). */
  function MixedOutput(outputDir: string): string {
    outputDir + ".wav"
  }

  /** Everything a run leaves behind. */
  datatype RunResult = RunResult(
    notes: seq<NoteVolumeStartTime>,
    wavFiles: map<int, string>,
    manifest: seq<string>,
    commands: seq<Command>,
    failures: seq<string>,
    files: set<string>)

  /** The files on disk just before cleanup. */
  ghost function FilesBeforeCleanup(track: seq<MidiEvent>, wavFile: string, outputDir: string, sampleRate: int,
                                    baseNote: int, windows: bool, shell: string -> int, files0: set<string>): set<string>
  {
    var shifts := ShiftCommands(wavFile, baseNote, Ascending(Pitches(NoteOns(track))));
    var mixed := if shell(CommandLine(Mix(sampleRate, outputDir), windows)) == 0 then {MixedOutput(outputDir)} else {};
    files0 + {ReferenceCopy} + Produced(shifts, shell, windows) + {ManifestPath} + mixed
  }

  /** What one run of the pipeline on a track produces, stage by stage. */
  ghost function RunSpec(track: seq<MidiEvent>, wavFile: string, outputDir: string, sampleRate: int, baseNote: int,
                         windows: bool, shell: string -> int, locked: set<string>, showTime: Seconds -> string,
                         files0: set<string>): RunResult
  {
    var notes := NoteOns(track);
    var variants := VariantMap(wavFile, baseNote, Pitches(notes));
    var shifts := ShiftCommands(wavFile, baseNote, Ascending(Pitches(notes)));
    var before := FilesBeforeCleanup(track, wavFile, outputDir, sampleRate, baseNote, windows, shell, files0);
    var cleanup := Clean(CleanupOrder(variants), before, locked, shell, windows);
    RunResult(notes, variants, ManifestLines(notes, variants, showTime),
              shifts + [Mix(sampleRate, outputDir)] + cleanup.ran, cleanup.failures, cleanup.files)
  }

  class Pipeline {
    const wavFile: string
    const outputDir: string
    const sampleRate: int
    const baseNote: int
    const windows: bool
    const shell: string -> int
    const locked: set<string>
    const showTime: Seconds -> string

    /** Paths present on disk. */
    var files: set<string>
    /** Every command line passed to system(), in order. */
    var commands: seq<Command>
    /** notesUsedInSelectedTrack. */
    var notesUsed: set<int>
    /** notesWithTheirWavFiles. */
    var wavFiles: map<int, string>
    /** NotesVolumesStartTimes, filled up to notesIndex. */
    var notes: array<NoteVolumeStartTime>
    var notesIndex: int
    /** The lines written to the manifest. */
    var manifest: seq<string>
    /** Paths reported as not deleted. */
    var failures: seq<string>

    /** The state at the start of main: nothing collected, nothing run. */
    predicate Initial()
      reads this
    {
      commands == [] && notesUsed == {} && wavFiles == map[] && notesIndex == 0 && manifest == [] && failures == []
    }

    constructor(wavFile: string, outputDir: string, sampleRate: int, baseNote: int, windows: bool,
                shell: string -> int, locked: set<string>, showTime: Seconds -> string, files: set<string>)
      ensures this.wavFile == wavFile && this.outputDir == outputDir && this.sampleRate == sampleRate
      ensures this.baseNote == baseNote && this.windows == windows && this.shell == shell
      ensures this.locked == locked && this.showTime == showTime && this.files == files
      ensures Initial()
    {
      this.wavFile := wavFile;
      this.outputDir := outputDir;
      this.sampleRate := sampleRate;
      this.baseNote := baseNote;
      this.windows := windows;
      this.shell := shell;
      this.locked := locked;
      this.showTime := showTime;
      this.files := files;
      commands := [];
      notesUsed := {};
      wavFiles := map[];
      notes := new NoteVolumeStartTime[0];
      notesIndex := 0;
      manifest := [];
      failures := [];
    }

    /** Copy the input sample to the working copy and map the base note to it (midi2.cpp:199-206). */
    method CopyReference()
      modifies this
      ensures files == old(files) + {ReferenceCopy}
      ensures wavFiles == old(wavFiles)[baseNote := ReferenceCopy]
      ensures commands == old(commands) && notesUsed == old(notesUsed) && manifest == old(manifest)
      ensures failures == old(failures) && notes == old(notes) && notesIndex == old(notesIndex)
    {
      files := files + {ReferenceCopy};
      wavFiles := wavFiles[baseNote := ReferenceCopy];
    }

    /**
     * Allocate a zeroed buffer of one record per event and store the record
     * of each note-on in order, collecting its pitch (midi2.cpp:213-239).
     */
    method ExtractNotes(track: seq<MidiEvent>)
      modifies this
      ensures fresh(notes) && notes.Length == |track|
      ensures 0 <= notesIndex <= notes.Length && notes[..notesIndex] == NoteOns(track)
      ensures forall k :: notesIndex <= k < notes.Length ==> notes[k] == Zeroed
      ensures notes.Length - notesIndex == NonNoteOnCount(track)
      ensures notesUsed == old(notesUsed) + Pitches(NoteOns(track))
      ensures files == old(files) && commands == old(commands) && wavFiles == old(wavFiles)
      ensures manifest == old(manifest) && failures == old(failures)
    {
      var buf := new NoteVolumeStartTime[|track|](_ => Zeroed);
      var index, used := ScanTrack(buf, track, notesUsed);
      notes := buf;
      notesIndex := index;
      notesUsed := used;
      NoteOnsCount(track);
    }

    /**
     * Visit the collected pitches in ascending order; each one other than
     * the base note gets a shifted file name in the map and one pitch-shift
     * command (midi2.cpp:240-265).
     */
    method ResolveVariants()
      modifies this
      ensures commands == old(commands) + ShiftCommands(wavFile, baseNote, Ascending(notesUsed))
      ensures wavFiles == old(wavFiles) + ShiftMap(wavFile, baseNote, notesUsed)
      ensures files == old(files) + Produced(ShiftCommands(wavFile, baseNote, Ascending(notesUsed)), shell, windows)
      ensures notesUsed == old(notesUsed) && manifest == old(manifest) && failures == old(failures)
      ensures notes == old(notes) && notesIndex == old(notesIndex)
    {
      var order := SortedElements(notesUsed);
      var cmds, made, entries := ShiftLoop(wavFile, baseNote, order, shell, windows);
      ElementsOf(notesUsed, order);
      commands := commands + cmds;
      files := files + made;
      wavFiles := wavFiles + entries;
    }

    /**
     * Truncate the manifest and write one line per stored record, reading
     * each record's file through operator[] (midi2.cpp:272-292).
     */
    method WriteManifest()
      requires 0 <= notesIndex <= notes.Length
      modifies this
      ensures notes == old(notes) && notesIndex == old(notesIndex)
      ensures manifest == ManifestLines(notes[..notesIndex], old(wavFiles), showTime)
      ensures wavFiles == WithInserted(old(wavFiles), notes[..notesIndex])
      ensures files == old(files) + {ManifestPath}
      ensures commands == old(commands) && notesUsed == old(notesUsed) && failures == old(failures)
    {
      files := files + {ManifestPath};
      manifest := [];
      var i := 0;
      while i < notesIndex
        invariant notes == old(notes) && notesIndex == old(notesIndex)
        invariant 0 <= i <= notesIndex
        invariant manifest == ManifestLines(notes[..i], old(wavFiles), showTime)
        invariant wavFiles == WithInserted(old(wavFiles), notes[..i])
        invariant files == old(files) + {ManifestPath}
        invariant commands == old(commands) && notesUsed == old(notesUsed) && failures == old(failures)
      {
        var note := notes[i];
        WithInsertedSnoc(old(wavFiles), notes[..i], note);
        assert notes[..i + 1] == notes[..i] + [note];
        if note.note !in wavFiles {
          wavFiles := wavFiles[note.note := ""];
        }
        manifest := manifest + [ManifestLine(wavFiles[note.note], note, showTime)];
        i := i + 1;
      }
    }

    /** Run the mixer on the manifest (midi2.cpp:296-298). */
    method RunMixer()
      modifies this
      ensures commands == old(commands) + [Mix(sampleRate, outputDir)]
      ensures files == old(files) +
        (if shell(CommandLine(Mix(sampleRate, outputDir), windows)) == 0 then {MixedOutput(outputDir)} else {})
      ensures wavFiles == old(wavFiles) && notesUsed == old(notesUsed) && manifest == old(manifest)
      ensures failures == old(failures) && notes == old(notes) && notesIndex == old(notesIndex)
    {
      var c := Mix(sampleRate, outputDir);
      commands := commands + [c];
      if shell(CommandLine(c, windows)) == 0 {
        files := files + {MixedOutput(outputDir)};
      }
    }

    /** Delete the file of every map entry in ascending key order, reporting failures (midi2.cpp:299-306). */
    method CleanUp()
      modifies this
      ensures var r := Clean(CleanupOrder(wavFiles), old(files), locked, shell, windows);
        files == r.files && commands == old(commands) + r.ran && failures == old(failures) + r.failures
      ensures wavFiles == old(wavFiles) && notesUsed == old(notesUsed) && manifest == old(manifest)
      ensures notes == old(notes) && notesIndex == old(notesIndex)
    {
      var order := SortedElements(wavFiles.Keys);
      AscendingSpec(wavFiles.Keys);
      var ran, reported, left := RemoveVariants(wavFiles, order, files, locked, shell, windows);
      commands := commands + ran;
      failures := failures + reported;
      files := left;
    }

    /**
     * Everything before the manifest (midi2.cpp:199-265): the working copy,
     * the note records of the track, and one variant per distinct pitch.
     */
    method Prepare(track: seq<MidiEvent>)
      requires Initial()
      modifies this
      ensures 0 <= notesIndex <= notes.Length && notes[..notesIndex] == NoteOns(track)
      ensures notesUsed == Pitches(NoteOns(track))
      ensures commands == ShiftCommands(wavFile, baseNote, Ascending(Pitches(NoteOns(track))))
      ensures wavFiles == VariantMap(wavFile, baseNote, Pitches(NoteOns(track)))
      ensures files == old(files) + {ReferenceCopy} +
        Produced(ShiftCommands(wavFile, baseNote, Ascending(Pitches(NoteOns(track)))), shell, windows)
      ensures manifest == [] && failures == []
    {
      CopyReference();
      ExtractNotes(track);
      ResolveVariants();
    }

    /** main from track selection to the end (midi2.cpp:191-307), on the tracks of a loaded MIDI file. */
    method Run(tracks: seq<seq<MidiEvent>>, midiTrack: int)
      requires Initial()
      requires 0 <= ResolveTrack(|tracks|, midiTrack) < |tracks|
      modifies this
      ensures var r := RunSpec(tracks[ResolveTrack(|tracks|, midiTrack)], wavFile, outputDir, sampleRate, baseNote,
                               windows, shell, locked, showTime, old(files));
        && 0 <= notesIndex <= notes.Length && notes[..notesIndex] == r.notes
        && notesUsed == Pitches(r.notes) && wavFiles == r.wavFiles && manifest == r.manifest
        && commands == r.commands && failures == r.failures && files == r.files
    {
      var track := tracks[ResolveTrack(|tracks|, midiTrack)];
      ghost var ns := NoteOns(track);
      Prepare(track);
      VariantMapKeys(wavFile, baseNote, Pitches(ns));
      WithInsertedNone(wavFiles, ns);
      WriteManifest();
      RunMixer();
      assert files == FilesBeforeCleanup(track, wavFile, outputDir, sampleRate, baseNote, windows, shell, old(files));
      CleanUp();
    }
  }

  /**
   * The scan loop (midi2.cpp:218-237): the record of each note-on goes to
   * the next free slot of the zeroed buffer, and its pitch into the set.
   */
  method ScanTrack(buf: array<NoteVolumeStartTime>, track: seq<MidiEvent>, used0: set<int>)
    returns (index: int, used: set<int>)
    requires buf.Length == |track|
    requires forall k :: 0 <= k < buf.Length ==> buf[k] == Zeroed
    modifies buf
    ensures 0 <= index <= buf.Length && buf[..index] == NoteOns(track)
    ensures forall k :: index <= k < buf.Length ==> buf[k] == Zeroed
    ensures used == used0 + Pitches(NoteOns(track))
  {
    index := 0;
    used := used0;
    var event := 0;
    while event < |track|
      invariant 0 <= event <= |track| && 0 <= index <= event
      invariant buf[..index] == NoteOns(track[..event])
      invariant forall k :: index <= k < buf.Length ==> buf[k] == Zeroed
      invariant used == used0 + Pitches(NoteOns(track[..event]))
    {
      NoteOnsStep(track, event);
      if track[event].isNoteOn {
        var note := track[event].b1 as int;
        used := used + {note};
        var volume := track[event].b2 as int;
        buf[index] := NoteVolumeStartTime(note, volume, track[event].seconds);
        assert buf[..index + 1] == buf[..index] + [buf[index]];
        index := index + 1;
      }
      event := event + 1;
    }
    assert track[..|track|] == track;
  }


  /**
   * The shift loop (midi2.cpp:240-265) over the pitches in the order visited:
   * each pitch other than the base note gets its shifted file in the map and
   * one pitch-shift command, whose output exists when the command succeeds.
   */
  method ShiftLoop(wavFile: string, baseNote: int, order: seq<int>, shell: string -> int, windows: bool)
    returns (cmds: seq<Command>, made: set<string>, entries: map<int, string>)
    ensures cmds == ShiftCommands(wavFile, baseNote, order)
    ensures made == Produced(cmds, shell, windows)
    ensures entries == ShiftMap(wavFile, baseNote, set i | 0 <= i < |order| :: order[i])
  {
    cmds, made, entries := [], {}, map[];
    for k := 0 to |order|
      invariant cmds == ShiftCommands(wavFile, baseNote, order[..k])
      invariant made == Produced(cmds, shell, windows)
      invariant entries == ShiftMap(wavFile, baseNote, set i | 0 <= i < k :: order[i])
    {
      var note := order[k];
      assert order[..k + 1] == order[..k] + [note];
      assert (set i | 0 <= i < k + 1 :: order[i]) == (set i | 0 <= i < k :: order[i]) + {note};
      ShiftCommandsSnoc(wavFile, baseNote, order[..k], note);
      ShiftMapAdd(wavFile, baseNote, set i | 0 <= i < k :: order[i], note);
      var noteDelta := note - baseNote;
      if noteDelta != 0 {
        var output := ShiftedName(wavFile, noteDelta);
        entries := entries[note := output];
        var c := PitchShift(wavFile, output, noteDelta);
        ProducedSnoc(cmds, c, shell, windows);
        cmds := cmds + [c];
        if shell(CommandLine(c, windows)) == 0 {
          made := made + {output};
        }
      }
    }
    assert order[..|order|] == order;
  }

  /**
   * rmfile (midi2.cpp:309-327): remove() the path; when that fails, run the
   * platform's forced delete and return its exit status.
   */
  method RemoveFile(path: string, files: set<string>, locked: set<string>, shell: string -> int, windows: bool)
    returns (status: int, ran: seq<Command>, left: set<string>)
    ensures RmResult(status, ran, left) == Cleanup.RmFile(path, files, locked, shell, windows)
  {
    if path in files && path !in locked {
      left := files - {path};
      status, ran := 0, [];
    } else {
      var c := ForceDelete(path);
      ran := [c];
      status := shell(CommandLine(c, windows));
      left := if status == 0 then files - {path} else files;
    }
  }

  /**
   * The cleanup loop (midi2.cpp:299-306): visit the keys in the given order,
   * rmfile each key's file, and report each nonzero result.
   */
  method RemoveVariants(m: map<int, string>, order: seq<int>, files0: set<string>, locked: set<string>,
                        shell: string -> int, windows: bool)
    returns (ran: seq<Command>, failures: seq<string>, files: set<string>)
    requires forall i :: 0 <= i < |order| ==> order[i] in m
    ensures Outcome(ran, failures, files) == Clean(ValuesAt(m, order), files0, locked, shell, windows)
  {
    ran, failures, files := [], [], files0;
    for k := 0 to |order|
      invariant Outcome(ran, failures, files) == Clean(ValuesAt(m, order[..k]), files0, locked, shell, windows)
    {
      var path := m[order[k]];
      ValuesAtSnoc(m, order[..k], order[k]);
      assert order[..k + 1] == order[..k] + [order[k]];
      CleanSnoc(ValuesAt(m, order[..k]), path, files0, locked, shell, windows);
      var status, cmds, left := RemoveFile(path, files, locked, shell, windows);
      ran := ran + cmds;
      if status != 0 {
        failures := failures + [path];
      }
      files := left;
    }
    assert order[..|order|] == order;
  }

  /**
   * The elements of a std::set in the order its iterator visits them, from
   * begin() to end(): each step takes the least element not yet visited.
   */
  method SortedElements(s: set<int>) returns (xs: seq<int>)
    ensures xs == Ascending(s)
  {
    var todo := s;
    xs := [];
    WalkStart(todo);
    while todo != {}
      invariant todo <= s && Walked(xs, s - todo, todo)
      decreases |todo|
    {
      LeastExists(todo);
      var m :| m in todo && forall q :: q in todo ==> m <= q;
      WalkStep(xs, s - todo, todo, m);
      assert s - (todo - {m}) == (s - todo) + {m};
      xs := xs + [m];
      todo := todo - {m};
    }
    assert s - todo == s;
    WalkEnd(xs, s);
  }

  /** The ascending listing of s has exactly the elements of s. */
  lemma ElementsOf(s: set<int>, xs: seq<int>)
    requires xs == Ascending(s)
    ensures (set i | 0 <= i < |xs| :: xs[i]) == s
  {
    AscendingSpec(s);
    forall x | x in s ensures x in (set i | 0 <= i < |xs| :: xs[i]) {
      var i :| 0 <= i < |xs| && xs[i] == x;
    }
  }

  /**
   * A run deletes nothing but the files the map names: everything on disk
   * before the cleanup that is no variant file is still there afterwards.
   */
  lemma RunDeletesOnlyVariants(track: seq<MidiEvent>, wavFile: string, outputDir: string, sampleRate: int,
                               baseNote: int, windows: bool, shell: string -> int, locked: set<string>,
                               showTime: Seconds -> string, files0: set<string>)
    ensures var r := RunSpec(track, wavFile, outputDir, sampleRate, baseNote, windows, shell, locked, showTime, files0);
      var before := FilesBeforeCleanup(track, wavFile, outputDir, sampleRate, baseNote, windows, shell, files0);
      && r.files <= before
      && forall f :: f in before && f !in r.wavFiles.Values ==> f in r.files
  {
    var variants := VariantMap(wavFile, baseNote, Pitches(NoteOns(track)));
    var before := FilesBeforeCleanup(track, wavFile, outputDir, sampleRate, baseNote, windows, shell, files0);
    CleanupOrderValues(variants);
    CleanFrame(CleanupOrder(variants), before, locked, shell, windows);
  }

  /** The manifest is left on disk after the run. */
  lemma RunKeepsManifest(track: seq<MidiEvent>, wavFile: string, outputDir: string, sampleRate: int,
                         baseNote: int, windows: bool, shell: string -> int, locked: set<string>,
                         showTime: Seconds -> string, files0: set<string>)
    ensures ManifestPath in
      RunSpec(track, wavFile, outputDir, sampleRate, baseNote, windows, shell, locked, showTime, files0).files
  {
    RunDeletesOnlyVariants(track, wavFile, outputDir, sampleRate, baseNote, windows, shell, locked, showTime, files0);
    VariantFiles(wavFile, baseNote, Pitches(NoteOns(track)));
  }

  /** The input sample survives the run unless it is itself named like the working copy. */
  lemma RunKeepsInput(track: seq<MidiEvent>, wavFile: string, outputDir: string, sampleRate: int,
                      baseNote: int, windows: bool, shell: string -> int, locked: set<string>,
                      showTime: Seconds -> string, files0: set<string>)
    requires wavFile in files0 && wavFile != ReferenceCopy
    ensures wavFile in
      RunSpec(track, wavFile, outputDir, sampleRate, baseNote, windows, shell, locked, showTime, files0).files
  {
    RunDeletesOnlyVariants(track, wavFile, outputDir, sampleRate, baseNote, windows, shell, locked, showTime, files0);
    VariantFiles(wavFile, baseNote, Pitches(NoteOns(track)));
  }

  /** A successful mix leaves its output, unless that output carries the name of a variant file. */
  lemma RunKeepsMixedOutput(track: seq<MidiEvent>, wavFile: string, outputDir: string, sampleRate: int,
                            baseNote: int, windows: bool, shell: string -> int, locked: set<string>,
                            showTime: Seconds -> string, files0: set<string>)
    requires shell(CommandLine(Mix(sampleRate, outputDir), windows)) == 0
    requires MixedOutput(outputDir) !in VariantMap(wavFile, baseNote, Pitches(NoteOns(track))).Values
    ensures MixedOutput(outputDir) in
      RunSpec(track, wavFile, outputDir, sampleRate, baseNote, windows, shell, locked, showTime, files0).files
  {
    RunDeletesOnlyVariants(track, wavFile, outputDir, sampleRate, baseNote, windows, shell, locked, showTime, files0);
  }

  /**
   * A variant file still on disk after the run has been reported, is one
   * remove() cannot delete, and its forced delete failed.
   */
  lemma RunReportsLeftovers(track: seq<MidiEvent>, wavFile: string, outputDir: string, sampleRate: int,
                            baseNote: int, windows: bool, shell: string -> int, locked: set<string>,
                            showTime: Seconds -> string, files0: set<string>, p: int)
    requires p in Pitches(NoteOns(track)) + {baseNote}
    ensures var r := RunSpec(track, wavFile, outputDir, sampleRate, baseNote, windows, shell, locked, showTime, files0);
      p in r.wavFiles && (r.wavFiles[p] in r.files ==>
        && r.wavFiles[p] in r.failures
        && r.wavFiles[p] in locked
        && shell(CommandLine(ForceDelete(r.wavFiles[p]), windows)) != 0)
  {
    var variants := VariantMap(wavFile, baseNote, Pitches(NoteOns(track)));
    var before := FilesBeforeCleanup(track, wavFile, outputDir, sampleRate, baseNote, windows, shell, files0);
    var order := CleanupOrder(variants);
    VariantMapKeys(wavFile, baseNote, Pitches(NoteOns(track)));
    CleanupOrderCovers(variants, p);
    var i :| 0 <= i < |order| && order[i] == variants[p];
    if variants[p] in Clean(order, before, locked, shell, windows).files {
      CleanReported(order, before, locked, shell, windows, i);
      CleanSettles(order, before, locked, shell, windows);
    }
  }

  /**
   * The manifest has one line per note-on of the track, in order, and each
   * names the sample file the map holds for the note's pitch (VariantMapAt:
   * the working copy for the base note, the shifted file otherwise).
   */
  lemma RunManifestLine(track: seq<MidiEvent>, wavFile: string, outputDir: string, sampleRate: int,
                        baseNote: int, windows: bool, shell: string -> int, locked: set<string>,
                        showTime: Seconds -> string, files0: set<string>, k: int)
    requires 0 <= k < |NoteOns(track)|
    ensures var r := RunSpec(track, wavFile, outputDir, sampleRate, baseNote, windows, shell, locked, showTime, files0);
      && |r.manifest| == |r.notes| && r.notes[k].note in r.wavFiles
      && r.manifest[k] == ManifestLine(r.wavFiles[r.notes[k].note], r.notes[k], showTime)
  {
    var notes := NoteOns(track);
    var variants := VariantMap(wavFile, baseNote, Pitches(notes));
    ManifestLineAt(notes, variants, showTime, k);
    assert notes[k].note in Pitches(notes);
    VariantMapKeys(wavFile, baseNote, Pitches(notes));
  }

  /**
   * The commands of a run: first the pitch shifts, one per pitch other than
   * the base note and each reading the input sample, then the mixer, then only forced deletes of variant files; every
   * reported failure is a variant file, and there are no more failures than
   * forced deletes.
   */
  lemma RunCommands(track: seq<MidiEvent>, wavFile: string, outputDir: string, sampleRate: int,
                    baseNote: int, windows: bool, shell: string -> int, locked: set<string>,
                    showTime: Seconds -> string, files0: set<string>)
    ensures var r := RunSpec(track, wavFile, outputDir, sampleRate, baseNote, windows, shell, locked, showTime, files0);
      var n := |ShiftCommands(wavFile, baseNote, Ascending(Pitches(r.notes)))|;
      && n == |Pitches(r.notes) - {baseNote}|
      && n < |r.commands| && r.commands[n] == Mix(sampleRate, outputDir)
      && (forall i :: 0 <= i < n ==> r.commands[i].PitchShift? && r.commands[i].input == wavFile)
      && (forall i :: n < i < |r.commands| ==> r.commands[i].ForceDelete? && r.commands[i].path in r.wavFiles.Values)
      && (forall i :: 0 <= i < |r.failures| ==> r.failures[i] in r.wavFiles.Values)
      && |r.failures| < |r.commands| - n
  {
    var r := RunSpec(track, wavFile, outputDir, sampleRate, baseNote, windows, shell, locked, showTime, files0);
    var pitches := Pitches(NoteOns(track));
    var shifts := ShiftCommands(wavFile, baseNote, Ascending(pitches));
    var variants := VariantMap(wavFile, baseNote, pitches);
    var before := FilesBeforeCleanup(track, wavFile, outputDir, sampleRate, baseNote, windows, shell, files0);
    var order := CleanupOrder(variants);
    var cleanup := Clean(order, before, locked, shell, windows);
    var n := |shifts|;
    assert r.commands == shifts + [Mix(sampleRate, outputDir)] + cleanup.ran;
    ShiftCommandsPerPitch(wavFile, baseNote, pitches);
    CleanTargetsValues(variants, before, locked, shell, windows);
    forall i | 0 <= i < n ensures shifts[i].PitchShift? && shifts[i].input == wavFile {
      ShiftCommandOrigin(wavFile, baseNote, pitches, i);
    }
    TraceShape(shifts, Mix(sampleRate, outputDir), cleanup.ran, wavFile, variants.Values);
  }

  /** The shape of a run's command trace: shifts of one input, one mixer run, then forced deletes of listed files. */
  lemma TraceShape(shifts: seq<Command>, mix: Command, ran: seq<Command>, input: string, targets: set<string>)
    requires forall i :: 0 <= i < |shifts| ==> shifts[i].PitchShift? && shifts[i].input == input
    requires forall k :: 0 <= k < |ran| ==> ran[k].ForceDelete? && ran[k].path in targets
    ensures var cs := shifts + [mix] + ran;
      && cs[|shifts|] == mix
      && (forall i :: 0 <= i < |shifts| ==> cs[i].PitchShift? && cs[i].input == input)
      && (forall i :: |shifts| < i < |cs| ==> cs[i].ForceDelete? && cs[i].path in targets)
  {
    var cs := shifts + [mix] + ran;
    forall i | |shifts| < i < |cs| ensures cs[i].ForceDelete? && cs[i].path in targets {
      assert cs[i] == ran[i - |shifts| - 1];
    }
  }

  /** The cleanup loop calls rmfile on each sample file of the run once: no file is visited twice. */
  lemma CleanupVisitsOnce(wavFile: string, baseNote: int, pitches: set<int>, i: int, j: int)
    requires 0 <= i < j < |CleanupOrder(VariantMap(wavFile, baseNote, pitches))|
    ensures CleanupOrder(VariantMap(wavFile, baseNote, pitches))[i] != CleanupOrder(VariantMap(wavFile, baseNote, pitches))[j]
  {
    var m := VariantMap(wavFile, baseNote, pitches);
    AscendingSpec(m.Keys);
    var ks := Ascending(m.Keys);
    assert |m.Keys| == |m| && CleanupOrder(m) == ValuesAt(m, ks);
    CleanupOrderAt(m, i);
    CleanupOrderAt(m, j);
    assert ks[i] < ks[j];
    VariantMapKeys(wavFile, baseNote, pitches);
    assert ks[i] in m.Keys && ks[j] in m.Keys;
    VariantMapInjective(wavFile, baseNote, pitches, ks[i], ks[j]);
  }

  /** Three note-ons, pitches 60, 64 and 60 again, at 0, 0.5 and 1 seconds. */
  const ThreeNotes: seq<MidiEvent> := [
    MidiEvent(true, 60, 100, Seconds(0.0)),
    MidiEvent(true, 64, 90, Seconds(0.5)),
    MidiEvent(true, 60, 80, Seconds(1.0))]

  /** The three events give three records in event order and the pitch set {60, 64}. */
  lemma ThreeNotesExtract()
    ensures NoteOns(ThreeNotes) == [NoteVolumeStartTime(60, 100, Seconds(0.0)), NoteVolumeStartTime(64, 90, Seconds(0.5)),
                                    NoteVolumeStartTime(60, 80, Seconds(1.0))]
    ensures Pitches(NoteOns(ThreeNotes)) == {60, 64}
  {
    var t := ThreeNotes;
    var a, b, c := Reduce(t[0]), Reduce(t[1]), Reduce(t[2]);
    assert NoteOns(t[..1]) == [a] by {
      assert t[..1][..0] == [];
    }
    assert NoteOns(t[..2]) == [a, b] by {
      assert t[..2][..1] == t[..1];
    }
    assert t[..3] == t;
    var notes := NoteOns(t);
    assert notes == [a, b, c];
    assert notes[0].note == 60 && notes[1].note == 64 && notes[2].note == 60;
  }

  /** With base note 60, the pitches {60, 64} need exactly one shift, by +4 semitones. */
  lemma ThreeNotesResolve(wavFile: string)
    ensures ShiftCommands(wavFile, 60, Ascending({60, 64})) == [PitchShift(wavFile, ShiftedName(wavFile, 4), 4)]
    ensures VariantMap(wavFile, 60, {60, 64}) == map[60 := ReferenceCopy, 64 := ShiftedName(wavFile, 4)]
  {
    AscendingStep(60, {60, 64});
    assert {60, 64} - {60} == {64};
    AscendingStep(64, {64});
    assert {64} - {64} == {};
    AscendingSpec({});
    var ps := Ascending({60, 64});
    assert ps == [60, 64];
    assert ps[1..] == [64] && ps[1..][1..] == [];
    assert ShiftMap(wavFile, 60, {60, 64}) == map[64 := ShiftedName(wavFile, 4)];
  }

  /**
   * With base note 60, the three note-ons give a map of two entries (60 to the
   * working copy, 64 to the +4 variant), one manifest line per note in event
   * order, and exactly one pitch shift, by +4 semitones, before the mixer.
   */
  lemma ThreeNotesRun(wavFile: string, outputDir: string, sampleRate: int, windows: bool, shell: string -> int,
                      locked: set<string>, showTime: Seconds -> string, files0: set<string>)
    ensures var r := RunSpec(ThreeNotes, wavFile, outputDir, sampleRate, 60, windows, shell, locked, showTime, files0);
      && r.notes == [NoteVolumeStartTime(60, 100, Seconds(0.0)), NoteVolumeStartTime(64, 90, Seconds(0.5)),
                     NoteVolumeStartTime(60, 80, Seconds(1.0))]
      && r.wavFiles == map[60 := ReferenceCopy, 64 := ShiftedName(wavFile, 4)]
      && |r.manifest| == 3
      && [PitchShift(wavFile, ShiftedName(wavFile, 4), 4), Mix(sampleRate, outputDir)] <= r.commands
  {
    ThreeNotesExtract();
    ThreeNotesResolve(wavFile);
    var notes := NoteOns(ThreeNotes);
    ManifestLineAt(notes, VariantMap(wavFile, 60, {60, 64}), showTime, 0);
  }
}
