// Note-on extraction (midi2.cpp:192-196, 214-239): the events of the chosen
// track, as the MIDI library delivers them after time analysis, are reduced
// to (pitch, velocity, start time) records, keeping only note-ons and their
// order.
module Notes {

  /** One unsigned byte of a MIDI message. */
  newtype byte = x: int | 0 <= x < 256

  /** Elapsed time of an event in seconds (a floating-point value in the source). */
  datatype Seconds = Seconds(value: real)

  /** What the pipeline reads of one parsed, time-analysed MIDI event. */
  datatype MidiEvent = MidiEvent(isNoteOn: bool, b1: byte, b2: byte, seconds: Seconds)

  /** The record stored per note-on (midi2.cpp:59-64). */
  datatype NoteVolumeStartTime = NoteVolumeStartTime(note: int, volume: int, startTime: Seconds)

  /** The value every slot of the note buffer holds after memset to zero. */
  const Zeroed := NoteVolumeStartTime(0, 0, Seconds(0.0))

  /**
   * Track selection: a negative track number counts from the end, so -1 is
   * the last track. Nothing is range-checked here; the result is a valid
   * track exactly when the given number lies in [-tracks, tracks).
   */
  function ResolveTrack(tracks: nat, midiTrack: int): (r: int)
    ensures midiTrack >= 0 ==> r == midiTrack
    ensures midiTrack < 0 ==> r == tracks + midiTrack
    ensures (0 <= r < tracks) <==> (0 - tracks <= midiTrack < tracks)
  {
    if midiTrack < 0 then tracks + midiTrack else midiTrack
  }

  /** A note-on event reduced to its record: byte 1 is the pitch, byte 2 the velocity. */
  function Reduce(e: MidiEvent): NoteVolumeStartTime {
    NoteVolumeStartTime(e.b1 as int, e.b2 as int, e.seconds)
  }

  /** The records of the note-on events of a track, in event order. */
  function NoteOns(track: seq<MidiEvent>): (notes: seq<NoteVolumeStartTime>)
    ensures |notes| <= |track|
    decreases |track|
  {
    if track == [] then []
    else
      var rest := NoteOns(track[..|track| - 1]);
      var e := track[|track| - 1];
      if e.isNoteOn then rest + [Reduce(e)] else rest
  }

  /** How many events of a track are not note-ons. */
  function NonNoteOnCount(track: seq<MidiEvent>): nat
    decreases |track|
  {
    if track == [] then 0
    else NonNoteOnCount(track[..|track| - 1]) + (if track[|track| - 1].isNoteOn then 0 else 1)
  }

  /** The set of pitches that occur among some records. */
  function Pitches(notes: seq<NoteVolumeStartTime>): set<int> {
    set k | 0 <= k < |notes| :: notes[k].note
  }

  /** The count reported after the scan, notesCount - notesIndex, is the number of skipped events. */
  lemma {:induction false} NoteOnsCount(track: seq<MidiEvent>)
    ensures |NoteOns(track)| + NonNoteOnCount(track) == |track|
    decreases |track|
  {
    if track != [] {
      NoteOnsCount(track[..|track| - 1]);
    }
  }

  /**
   * NoteOns keeps exactly the note-on events, in order: its k-th record is
   * the reduction of the event at idx[k], idx is strictly increasing, and
   * every note-on index of the track occurs in idx.
   */
  lemma {:induction false} NoteOnsIndices(track: seq<MidiEvent>) returns (idx: seq<int>)
    ensures |idx| == |NoteOns(track)|
    ensures forall k :: 0 <= k < |idx| ==> 0 <= idx[k] < |track|
    ensures forall k :: 0 <= k < |idx| ==> track[idx[k]].isNoteOn && NoteOns(track)[k] == Reduce(track[idx[k]])
    ensures forall k, l :: 0 <= k < l < |idx| ==> idx[k] < idx[l]
    ensures forall i :: 0 <= i < |track| && track[i].isNoteOn ==> i in idx
    decreases |track|
  {
    if track == [] {
      idx := [];
    } else {
      var init := track[..|track| - 1];
      var last := |track| - 1;
      var pre := NoteOnsIndices(init);
      var ns := NoteOns(init);
      if track[last].isNoteOn {
        idx := pre + [last];
        assert NoteOns(track) == ns + [Reduce(track[last])];
      } else {
        idx := pre;
        assert NoteOns(track) == ns;
      }
      forall k | 0 <= k < |idx|
        ensures 0 <= idx[k] < |track| && track[idx[k]].isNoteOn && NoteOns(track)[k] == Reduce(track[idx[k]])
      {
        if k < |pre| {
          assert idx[k] == pre[k] && init[pre[k]] == track[pre[k]];
          assert NoteOns(track)[k] == ns[k];
        }
      }
      forall i | 0 <= i < |track| && track[i].isNoteOn ensures i in idx {
        if i < last {
          assert init[i] == track[i];
          assert i in pre;
        } else {
          assert idx[|idx| - 1] == last;
        }
      }
    }
  }

  /** The scan's step: the event at position i contributes its record when it is a note-on. */
  lemma NoteOnsStep(track: seq<MidiEvent>, i: int)
    requires 0 <= i < |track|
    ensures NoteOns(track[..i + 1]) == NoteOns(track[..i]) + (if track[i].isNoteOn then [Reduce(track[i])] else [])
    ensures Pitches(NoteOns(track[..i + 1])) == Pitches(NoteOns(track[..i])) + (if track[i].isNoteOn then {track[i].b1 as int} else {})
  {
    assert track[..i + 1][..i] == track[..i];
    if track[i].isNoteOn {
      PitchesSnoc(NoteOns(track[..i]), Reduce(track[i]));
    }
  }

  /** Appending one note-on record adds its pitch to the pitch set. */
  lemma PitchesSnoc(notes: seq<NoteVolumeStartTime>, n: NoteVolumeStartTime)
    ensures Pitches(notes + [n]) == Pitches(notes) + {n.note}
  {
    var s := notes + [n];
    assert s[|notes|] == n;
    forall p | p in Pitches(notes) ensures p in Pitches(s) {
      var k :| 0 <= k < |notes| && notes[k].note == p;
      assert s[k] == notes[k];
    }
  }
}
