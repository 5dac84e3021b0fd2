// Pitch-variant resolution (midi2.cpp:199-206, 240-265): the map from pitch to
// sample file, seeded with the base note's working copy, and one external
// pitch-shift command for every other pitch, visited in ascending order.
module Variants {
  import opened Decimal
  import opened Ordered

  /** Working copy of the reference sample (midi2.cpp:203, 206). */
  const ReferenceCopy: string := "Shift0.wav"
  /** The manifest read by the mixer (midi2.cpp:274, 296). */
  const ManifestPath: string := "w.txt"

  /** A command line handed to system(), kept as its parts. */
  datatype Command =
    | PitchShift(input: string, output: string, semitones: int)
    | Mix(sampleRate: int, outputDir: string)
    | ForceDelete(path: string)

  /** The exact text passed to system() for a command (midi2.cpp:250-253, 296, 315-320). */
  function CommandLine(c: Command, windows: bool): string {
    match c
    case PitchShift(input, output, semitones) =>
      "pitch -i \"" + input + "\" -o \"" + output + "\" -a " + IntToString(semitones)
    case Mix(sampleRate, outputDir) =>
      "wavCompositorExtended \"" + ManifestPath + "\" -s " + IntToString(sampleRate) + " -o " + outputDir + ".wav"
    case ForceDelete(path) =>
      (if windows then "del /f \"" else "rm -f \"") + path + "\""
  }

  /**
   * wavFile.substr(0, wavFile.size() - 4): the last four characters go. For a
   * name shorter than four characters the unsigned subtraction wraps around,
   * substr clamps the count, and the whole name is kept.
   */
  function Stem(wavFile: string): string {
    if |wavFile| >= 4 then wavFile[..|wavFile| - 4] else wavFile
  }

  /** The stem and the four characters dropped make up the name again; a short name is kept whole. */
  lemma StemSpec(wavFile: string)
    ensures |wavFile| >= 4 ==> Stem(wavFile) + wavFile[|wavFile| - 4..] == wavFile
    ensures |wavFile| < 4 ==> Stem(wavFile) == wavFile
    ensures |Stem(wavFile)| + 4 >= |wavFile|
  {
  }

  /** Output file of the pitch shift by delta semitones (midi2.cpp:252, 255). */
  function ShiftedName(wavFile: string, delta: int): string {
    Stem(wavFile) + "Shifted" + IntToString(delta) + ".wav"
  }

  /** A shifted name is the stem, "Shifted", the delta's decimal text and ".wav"; it is longer than the input name. */
  lemma ShiftedNameShape(wavFile: string, delta: int)
    ensures var name := ShiftedName(wavFile, delta);
      && |name| >= 12 && |name| > |wavFile|
      && name[..|Stem(wavFile)| + 7] == Stem(wavFile) + "Shifted"
      && name[|Stem(wavFile)| + 7..|name| - 4] == IntToString(delta)
      && name[|name| - 4..] == ".wav"
  {
    StemSpec(wavFile);
    var name := ShiftedName(wavFile, delta);
    var prefix := Stem(wavFile) + "Shifted";
    assert name == prefix + IntToString(delta) + ".wav";
    assert name[|prefix|..|name| - 4] == IntToString(delta);
  }

  /** A shifted name is never the working copy, the manifest, or the input sample itself. */
  lemma ShiftedNameReserved(wavFile: string, delta: int)
    ensures ShiftedName(wavFile, delta) != ReferenceCopy
    ensures ShiftedName(wavFile, delta) != ManifestPath
    ensures ShiftedName(wavFile, delta) != wavFile
  {
    ShiftedNameShape(wavFile, delta);
    assert |ReferenceCopy| == 10 && |ManifestPath| == 5;
  }

  /** Distinct deltas never share an output file. */
  lemma ShiftedNameInjective(wavFile: string, d1: int, d2: int)
    requires d1 != d2
    ensures ShiftedName(wavFile, d1) != ShiftedName(wavFile, d2)
  {
    var n1, n2 := ShiftedName(wavFile, d1), ShiftedName(wavFile, d2);
    if n1 == n2 {
      var stem := Stem(wavFile) + "Shifted";
      var t1, t2 := IntToString(d1), IntToString(d2);
      assert n1 == stem + t1 + ".wav" && n2 == stem + t2 + ".wav";
      assert |t1| == |t2|;
      assert n1[|stem|..|stem| + |t1|] == t1;
      assert n2[|stem|..|stem| + |t2|] == t2;
      IntToStringInjective(d1, d2);
      assert false;
    }
  }

  /** The entries the shift loop writes: every pitch but the base note gets its shifted file. */
  function ShiftMap(wavFile: string, baseNote: int, pitches: set<int>): map<int, string> {
    map p | p in pitches && p != baseNote :: ShiftedName(wavFile, p - baseNote)
  }

  /** The map after seeding (midi2.cpp:206) and the shift loop (midi2.cpp:240-265). */
  function VariantMap(wavFile: string, baseNote: int, pitches: set<int>): map<int, string> {
    map[baseNote := ReferenceCopy] + ShiftMap(wavFile, baseNote, pitches)
  }

  /** One more visited pitch adds its shifted file to the map, unless it is the base note. */
  lemma ShiftMapAdd(wavFile: string, baseNote: int, done: set<int>, p: int)
    ensures ShiftMap(wavFile, baseNote, done + {p}) ==
      if p == baseNote then ShiftMap(wavFile, baseNote, done)
      else ShiftMap(wavFile, baseNote, done)[p := ShiftedName(wavFile, p - baseNote)]
  {
  }

  /** The map has one entry per pitch of the track plus the base note. */
  lemma VariantMapKeys(wavFile: string, baseNote: int, pitches: set<int>)
    ensures VariantMap(wavFile, baseNote, pitches).Keys == pitches + {baseNote}
  {
    var m := VariantMap(wavFile, baseNote, pitches);
    forall p | p in pitches + {baseNote} ensures p in m {
      if p != baseNote {
        assert p in ShiftMap(wavFile, baseNote, pitches);
      }
    }
  }

  /** The base note keeps the reference copy and every other pitch of the track its shifted file. */
  lemma VariantMapAt(wavFile: string, baseNote: int, pitches: set<int>, p: int)
    requires p in pitches + {baseNote}
    ensures p in VariantMap(wavFile, baseNote, pitches)
    ensures VariantMap(wavFile, baseNote, pitches)[p]
      == if p == baseNote then ReferenceCopy else ShiftedName(wavFile, p - baseNote)
  {
    var sm := ShiftMap(wavFile, baseNote, pitches);
    if p == baseNote {
      assert p !in sm;
    } else {
      assert p in sm;
    }
  }

  /** No two pitches share a sample file. */
  lemma VariantMapInjective(wavFile: string, baseNote: int, pitches: set<int>, p: int, q: int)
    requires p in pitches + {baseNote} && q in pitches + {baseNote} && p != q
    ensures VariantMap(wavFile, baseNote, pitches)[p] != VariantMap(wavFile, baseNote, pitches)[q]
  {
    VariantMapAt(wavFile, baseNote, pitches, p);
    VariantMapAt(wavFile, baseNote, pitches, q);
    var d1, d2 := p - baseNote, q - baseNote;
    ShiftedNameInjective(wavFile, d1, d2);
    ShiftedNameReserved(wavFile, d1);
    ShiftedNameReserved(wavFile, d2);
  }

  /** Cleanup never targets the manifest, and targets the input sample only if it is named like the working copy. */
  lemma VariantFiles(wavFile: string, baseNote: int, pitches: set<int>)
    ensures ManifestPath !in VariantMap(wavFile, baseNote, pitches).Values
    ensures wavFile in VariantMap(wavFile, baseNote, pitches).Values <==> wavFile == ReferenceCopy
  {
    var m := VariantMap(wavFile, baseNote, pitches);
    assert m[baseNote] == ReferenceCopy;
    forall v | v in m.Values ensures v != ManifestPath && (v == wavFile ==> wavFile == ReferenceCopy) {
      var p :| p in m && m[p] == v;
      if p != baseNote {
        ShiftedNameReserved(wavFile, p - baseNote);
      }
    }
  }

  /** The commands of the shift loop over pitches visited in the order ps. */
  function ShiftCommands(wavFile: string, baseNote: int, ps: seq<int>): seq<Command>
    decreases |ps|
  {
    if ps == [] then []
    else
      var delta := ps[0] - baseNote;
      (if delta == 0 then [] else [PitchShift(wavFile, ShiftedName(wavFile, delta), delta)])
        + ShiftCommands(wavFile, baseNote, ps[1..])
  }

  /** The shift loop's step: visiting one more pitch appends its command, unless it is the base note. */
  lemma {:induction false} ShiftCommandsSnoc(wavFile: string, baseNote: int, ps: seq<int>, p: int)
    ensures ShiftCommands(wavFile, baseNote, ps + [p]) == ShiftCommands(wavFile, baseNote, ps) +
      (if p == baseNote then [] else [PitchShift(wavFile, ShiftedName(wavFile, p - baseNote), p - baseNote)])
    decreases |ps|
  {
    if ps == [] {
      assert ([p])[1..] == [];
    } else {
      assert (ps + [p])[0] == ps[0] && (ps + [p])[1..] == ps[1..] + [p];
      ShiftCommandsSnoc(wavFile, baseNote, ps[1..], p);
    }
  }

  /** The nonzero deltas of the pitches ps relative to the base note, in order. */
  function ShiftDeltas(baseNote: int, ps: seq<int>): seq<int>
    decreases |ps|
  {
    if ps == [] then []
    else (if ps[0] == baseNote then [] else [ps[0] - baseNote]) + ShiftDeltas(baseNote, ps[1..])
  }

  /** The i-th shift command reads the original sample and writes the file of the i-th nonzero delta. */
  lemma {:induction false} ShiftCommandsAt(wavFile: string, baseNote: int, ps: seq<int>)
    ensures |ShiftCommands(wavFile, baseNote, ps)| == |ShiftDeltas(baseNote, ps)|
    ensures forall i :: 0 <= i < |ShiftDeltas(baseNote, ps)| ==>
      ShiftCommands(wavFile, baseNote, ps)[i]
        == PitchShift(wavFile, ShiftedName(wavFile, ShiftDeltas(baseNote, ps)[i]), ShiftDeltas(baseNote, ps)[i])
    decreases |ps|
  {
    if ps != [] {
      var rest := ps[1..];
      ShiftCommandsAt(wavFile, baseNote, rest);
      var cs, ds := ShiftCommands(wavFile, baseNote, ps), ShiftDeltas(baseNote, ps);
      var ctail, dtail := ShiftCommands(wavFile, baseNote, rest), ShiftDeltas(baseNote, rest);
      var n := if ps[0] == baseNote then 0 else 1;
      assert cs[n..] == ctail && ds[n..] == dtail;
      forall i | 0 <= i < |ds|
        ensures cs[i] == PitchShift(wavFile, ShiftedName(wavFile, ds[i]), ds[i])
      {
        if i >= n {
          assert cs[i] == ctail[i - n] && ds[i] == dtail[i - n];
        }
      }
    }
  }

  /** Every delta is nonzero and comes from a pitch of ps. */
  lemma {:induction false} ShiftDeltasFrom(baseNote: int, ps: seq<int>)
    ensures forall i :: 0 <= i < |ShiftDeltas(baseNote, ps)| ==>
      ShiftDeltas(baseNote, ps)[i] != 0 && ShiftDeltas(baseNote, ps)[i] + baseNote in ps
    decreases |ps|
  {
    if ps != [] {
      var rest := ps[1..];
      ShiftDeltasFrom(baseNote, rest);
      var tail := ShiftDeltas(baseNote, rest);
      var head := if ps[0] == baseNote then [] else [ps[0] - baseNote];
      var ds := ShiftDeltas(baseNote, ps);
      assert ds == head + tail;
      forall i | 0 <= i < |ds| ensures ds[i] != 0 && ds[i] + baseNote in ps {
        if i >= |head| {
          assert ds[i] == tail[i - |head|];
          var j :| 0 <= j < |rest| && rest[j] == ds[i] + baseNote;
          assert ps[j + 1] == rest[j];
        }
      }
    }
  }

  /** Over strictly increasing pitches, no delta lies below that of the first pitch. */
  lemma {:induction false} ShiftDeltasAbove(baseNote: int, ps: seq<int>)
    requires StrictlyIncreasing(ps) && ps != []
    ensures forall i :: 0 <= i < |ShiftDeltas(baseNote, ps)| ==> ShiftDeltas(baseNote, ps)[i] >= ps[0] - baseNote
    decreases |ps|
  {
    var rest := ps[1..];
    var tail := ShiftDeltas(baseNote, rest);
    var head := if ps[0] == baseNote then [] else [ps[0] - baseNote];
    var ds := ShiftDeltas(baseNote, ps);
    assert ds == head + tail;
    if rest != [] {
      assert StrictlyIncreasing(rest) by {
        forall i, j | 0 <= i < j < |rest| ensures rest[i] < rest[j] {
          assert rest[i] == ps[i + 1] && rest[j] == ps[j + 1];
        }
      }
      ShiftDeltasAbove(baseNote, rest);
      assert rest[0] == ps[1];
      forall i | 0 <= i < |ds| ensures ds[i] >= ps[0] - baseNote {
        if i >= |head| {
          assert ds[i] == tail[i - |head|];
        }
      }
    } else {
      assert tail == [];
    }
  }

  /**
   * Over strictly increasing pitches the deltas strictly increase, so none is
   * requested twice.
   */
  lemma {:induction false} ShiftDeltasIncreasing(baseNote: int, ps: seq<int>)
    requires StrictlyIncreasing(ps)
    ensures StrictlyIncreasing(ShiftDeltas(baseNote, ps))
    decreases |ps|
  {
    if ps != [] {
      var rest := ps[1..];
      assert StrictlyIncreasing(rest) by {
        forall i, j | 0 <= i < j < |rest| ensures rest[i] < rest[j] {
          assert rest[i] == ps[i + 1] && rest[j] == ps[j + 1];
        }
      }
      ShiftDeltasIncreasing(baseNote, rest);
      var tail := ShiftDeltas(baseNote, rest);
      var head := if ps[0] == baseNote then [] else [ps[0] - baseNote];
      var ds := ShiftDeltas(baseNote, ps);
      assert ds == head + tail;
      if head != [] && rest != [] {
        ShiftDeltasAbove(baseNote, rest);
        assert rest[0] == ps[1];
        forall i, j | 0 <= i < j < |ds| ensures ds[i] < ds[j] {
          assert ds[j] == tail[j - 1];
          if i >= 1 {
            assert ds[i] == tail[i - 1];
          }
        }
      } else if head == [] {
        assert ds == tail;
      } else {
        assert tail == [];
      }
    }
  }

  /** Every pitch of ps other than the base note contributes its delta. */
  lemma {:induction false} ShiftDeltasComplete(baseNote: int, ps: seq<int>)
    ensures forall p :: p in ps && p != baseNote ==> p - baseNote in ShiftDeltas(baseNote, ps)
    decreases |ps|
  {
    if ps != [] {
      var rest := ps[1..];
      ShiftDeltasComplete(baseNote, rest);
      var tail := ShiftDeltas(baseNote, rest);
      var head := if ps[0] == baseNote then [] else [ps[0] - baseNote];
      var ds := ShiftDeltas(baseNote, ps);
      assert ds == head + tail;
      forall p | p in ps && p != baseNote ensures p - baseNote in ds {
        if p == ps[0] {
          assert ds[0] == p - baseNote;
        } else {
          var j :| 0 <= j < |ps| && ps[j] == p;
          assert rest[j - 1] == p;
          assert p in rest;
          assert p - baseNote in tail;
          var k :| 0 <= k < |tail| && tail[k] == p - baseNote;
          assert ds[|head| + k] == tail[k];
        }
      }
    }
  }

  /** No two shift commands of a run share a delta or an output file, and none has delta 0. */
  lemma ShiftCommandsDistinct(wavFile: string, baseNote: int, pitches: set<int>, i: int, j: int)
    requires 0 <= i < j < |ShiftCommands(wavFile, baseNote, Ascending(pitches))|
    ensures var cs := ShiftCommands(wavFile, baseNote, Ascending(pitches));
      && cs[i].PitchShift? && cs[j].PitchShift? && cs[i].semitones != 0 && cs[j].semitones != 0
      && cs[i].semitones < cs[j].semitones && cs[i].output != cs[j].output
  {
    var ps := Ascending(pitches);
    AscendingSpec(pitches);
    ShiftDeltasIncreasing(baseNote, ps);
    ShiftDeltasFrom(baseNote, ps);
    ShiftCommandsAt(wavFile, baseNote, ps);
    var ds := ShiftDeltas(baseNote, ps);
    var d1, d2 := ds[i], ds[j];
    ShiftedNameInjective(wavFile, d1, d2);
  }

  /** Every pitch of the set other than the base note gets a shift command carrying its delta. */
  lemma ShiftCommandFor(wavFile: string, baseNote: int, pitches: set<int>, p: int)
    requires p in pitches && p != baseNote
    ensures var cs := ShiftCommands(wavFile, baseNote, Ascending(pitches));
      exists i :: 0 <= i < |cs| && cs[i] == PitchShift(wavFile, ShiftedName(wavFile, p - baseNote), p - baseNote)
  {
    var ps := Ascending(pitches);
    AscendingSpec(pitches);
    ShiftCommandsAt(wavFile, baseNote, ps);
    ShiftDeltasComplete(baseNote, ps);
    var ds := ShiftDeltas(baseNote, ps);
    var i :| 0 <= i < |ds| && ds[i] == p - baseNote;
  }

  lemma ShiftCommandFrom(wavFile: string, baseNote: int, ps: seq<int>, i: int)
    requires 0 <= i < |ShiftCommands(wavFile, baseNote, ps)|
    ensures var c := ShiftCommands(wavFile, baseNote, ps)[i];
      && c.PitchShift? && c.input == wavFile && c.semitones != 0
      && c.semitones + baseNote in ps && c.output == ShiftedName(wavFile, c.semitones)
  {
    ShiftCommandsAt(wavFile, baseNote, ps);
    ShiftDeltasFrom(baseNote, ps);
  }

  /**
   * Every shift command reads the original sample, carries a nonzero delta of
   * a pitch of the set, and writes that delta's file.
   */
  lemma ShiftCommandOrigin(wavFile: string, baseNote: int, pitches: set<int>, i: int)
    requires 0 <= i < |ShiftCommands(wavFile, baseNote, Ascending(pitches))|
    ensures var c := ShiftCommands(wavFile, baseNote, Ascending(pitches))[i];
      && c.PitchShift? && c.input == wavFile && c.semitones != 0
      && c.semitones + baseNote in pitches && c.output == ShiftedName(wavFile, c.semitones)
  {
    ShiftCommandFrom(wavFile, baseNote, Ascending(pitches), i);
    AscendingSpec(pitches);
  }

  /** One shift command per pitch other than the base note: |pitches - {baseNote}| in all. */
  lemma {:induction false} ShiftCommandsCount(wavFile: string, baseNote: int, ps: seq<int>)
    ensures |ShiftCommands(wavFile, baseNote, ps)| == |ps| - (if baseNote in ps then multiset(ps)[baseNote] else 0)
    decreases |ps|
  {
    if ps != [] {
      ShiftCommandsCount(wavFile, baseNote, ps[1..]);
      assert ps == [ps[0]] + ps[1..];
      assert multiset(ps) == multiset([ps[0]]) + multiset(ps[1..]);
    }
  }

  /** Over the ascending listing of a set, there is one delta per element other than the base note. */
  lemma {:induction false} ShiftDeltasPerPitch(baseNote: int, pitches: set<int>)
    ensures |ShiftDeltas(baseNote, Ascending(pitches))| == |pitches - {baseNote}|
    decreases |pitches|
  {
    if pitches != {} {
      LeastExists(pitches);
      var m :| IsLeast(m, pitches);
      AscendingStep(m, pitches);
      var rest := pitches - {m};
      ShiftDeltasPerPitch(baseNote, rest);
      var ps := Ascending(pitches);
      assert ps[0] == m && ps[1..] == Ascending(rest);
      RemoveOneMore(pitches, m, baseNote);
    }
  }

  /** Taking one element m out of a set first changes the count of the rest without b by one, unless m is b. */
  lemma RemoveOneMore(s: set<int>, m: int, b: int)
    requires m in s
    ensures |s - {b}| == |(s - {m}) - {b}| + (if m == b then 0 else 1)
  {
    if m == b {
      assert s - {b} == (s - {m}) - {b};
    } else {
      assert s - {b} == ((s - {m}) - {b}) + {m};
    }
  }

  /** The loop issues exactly one shift command per pitch of the set other than the base note. */
  lemma ShiftCommandsPerPitch(wavFile: string, baseNote: int, pitches: set<int>)
    ensures |ShiftCommands(wavFile, baseNote, Ascending(pitches))| == |pitches - {baseNote}|
  {
    ShiftCommandsAt(wavFile, baseNote, Ascending(pitches));
    ShiftDeltasPerPitch(baseNote, pitches);
  }

  /** Output files the shift commands produce, given the exit status of each command line. */
  function Produced(cs: seq<Command>, shell: string -> int, windows: bool): set<string> {
    set i | 0 <= i < |cs| && cs[i].PitchShift? && shell(CommandLine(cs[i], windows)) == 0 :: cs[i].output
  }

  lemma ProducedSnoc(cs: seq<Command>, c: Command, shell: string -> int, windows: bool)
    requires c.PitchShift?
    ensures Produced(cs + [c], shell, windows) ==
      Produced(cs, shell, windows) + (if shell(CommandLine(c, windows)) == 0 then {c.output} else {})
  {
    var s := cs + [c];
    assert s[|cs|] == c;
    forall o | o in Produced(cs, shell, windows) ensures o in Produced(s, shell, windows) {
      var i :| 0 <= i < |cs| && cs[i].PitchShift? && shell(CommandLine(cs[i], windows)) == 0 && cs[i].output == o;
      assert s[i] == cs[i];
    }
  }
}
