// Manifest composition (midi2.cpp:272-292): one line per extracted note, in
// extraction order, naming the note's sample file, its start time and its
// velocity, written to the manifest the mixer reads.
module Manifest {
  import opened Decimal
  import opened Notes

  /**
   * Reading the map with operator[]: a present key gives its file; a missing
   * key reads as the empty string that operator[] inserts for it.
   */
  function Lookup(m: map<int, string>, key: int): string {
    if key in m then m[key] else ""
  }

  /** The map after operator[] has inserted an empty entry for every pitch of notes it lacked. */
  function WithInserted(m: map<int, string>, notes: seq<NoteVolumeStartTime>): map<int, string> {
    m + map p | p in Pitches(notes) && p !in m :: ""
  }

  /** "<path> <time> <volume>\n"; showTime stands for std::to_string of the float start time. */
  function ManifestLine(path: string, n: NoteVolumeStartTime, showTime: Seconds -> string): string {
    path + " " + showTime(n.startTime) + " " + IntToString(n.volume) + "\n"
  }

  /** The lines written for notes, in order. */
  function ManifestLines(notes: seq<NoteVolumeStartTime>, m: map<int, string>, showTime: Seconds -> string): seq<string>
    decreases |notes|
  {
    if notes == [] then []
    else
      var last := notes[|notes| - 1];
      ManifestLines(notes[..|notes| - 1], m, showTime) + [ManifestLine(Lookup(m, last.note), last, showTime)]
  }

  /** The manifest has one line per note, and line k is the line of the k-th note. */
  lemma {:induction false} ManifestLineAt(notes: seq<NoteVolumeStartTime>, m: map<int, string>,
                                          showTime: Seconds -> string, k: int)
    requires 0 <= k < |notes|
    ensures |ManifestLines(notes, m, showTime)| == |notes|
    ensures ManifestLines(notes, m, showTime)[k] == ManifestLine(Lookup(m, notes[k].note), notes[k], showTime)
    decreases |notes|
  {
    var init := notes[..|notes| - 1];
    if k < |init| {
      ManifestLineAt(init, m, showTime, k);
      assert init[k] == notes[k];
    } else if init != [] {
      ManifestLineAt(init, m, showTime, 0);
    }
  }

  /** Every line ends with the newline and begins with the file of its note's pitch. */
  lemma ManifestLineShape(path: string, n: NoteVolumeStartTime, showTime: Seconds -> string)
    ensures var line := ManifestLine(path, n, showTime);
      && |line| > |path| + 1
      && line[..|path|] == path && line[|path|] == ' ' && line[|line| - 1] == '\n'
  {
    var line := ManifestLine(path, n, showTime);
    assert line == path + (" " + showTime(n.startTime) + " " + IntToString(n.volume) + "\n");
  }

  /** The text after the last space. */
  function AfterLastSpace(s: string): string
    decreases |s|
  {
    if s == [] then []
    else if s[|s| - 1] == ' ' then []
    else AfterLastSpace(s[..|s| - 1]) + [s[|s| - 1]]
  }

  lemma {:induction false} AfterLastSpaceOf(a: string, b: string)
    requires forall i :: 0 <= i < |b| ==> b[i] != ' '
    ensures AfterLastSpace(a + " " + b) == b
    decreases |b|
  {
    var s := a + " " + b;
    if b == [] {
      assert s[|s| - 1] == ' ';
    } else {
      var init := b[..|b| - 1];
      AfterLastSpaceOf(a, init);
      assert s[..|s| - 1] == a + " " + init;
      assert b == init + [b[|b| - 1]];
    }
  }

  /**
   * The mixer can read the velocity back: the last field of a line, before
   * its newline, is the decimal text of the volume (which IntRoundTrip parses
   * back to the volume).
   */
  lemma ManifestVolumeRoundTrip(path: string, n: NoteVolumeStartTime, showTime: Seconds -> string)
    ensures var line := ManifestLine(path, n, showTime);
      AfterLastSpace(line[..|line| - 1]) == IntToString(n.volume)
  {
    var line := ManifestLine(path, n, showTime);
    var v := IntToString(n.volume);
    IntToStringShape(n.volume);
    forall i | 0 <= i < |v| ensures v[i] != ' ' {
      if i > 0 || n.volume >= 0 {
        if n.volume < 0 {
          assert v[i] == v[1..][i - 1];
        }
      }
    }
    assert line[..|line| - 1] == (path + " " + showTime(n.startTime)) + " " + v;
    AfterLastSpaceOf(path + " " + showTime(n.startTime), v);
  }

  /** When every note's pitch has an entry, operator[] inserts nothing. */
  lemma WithInsertedNone(m: map<int, string>, notes: seq<NoteVolumeStartTime>)
    requires Pitches(notes) <= m.Keys
    ensures WithInserted(m, notes) == m
  {
    assert (map p | p in Pitches(notes) && p !in m :: "") == map[];
  }

  /** Reading a note through operator[] gives what Lookup gives on the map before any insertion. */
  lemma WithInsertedSnoc(m: map<int, string>, notes: seq<NoteVolumeStartTime>, n: NoteVolumeStartTime)
    ensures var before := WithInserted(m, notes);
      WithInserted(m, notes + [n]) == (if n.note in before then before else before[n.note := ""])
    ensures Lookup(WithInserted(m, notes), n.note) == Lookup(m, n.note)
  {
    PitchesSnoc(notes, n);
  }
}
