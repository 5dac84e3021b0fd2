# wavableMidi-C: the note-to-sample pipeline of midi2.cpp

wavableMidi-C renders the melody of one MIDI track as audio. It re-uses a
single reference sample tuned to a base note and pitch-shifts that sample
with external tools. This project models the body of `main` in `midi2.cpp`
after the command line has been read and the MIDI file loaded. The steps are:

1. **Track choice.** A negative track number counts from the end
   (`Notes.ResolveTrack`).
2. **Working copy.** The input sample is copied to `Shift0.wav`, and the
   base note is mapped to that copy (`Pipeline.Pipeline.CopyReference`).
3. **Note extraction.** The track's events are scanned in order. Each
   note-on becomes a record (pitch, velocity, start time), stored in a
   zeroed buffer through the counter `notesIndex`, and its pitch goes into
   a set (`Pipeline.ScanTrack`, `Pipeline.Pipeline.ExtractNotes`).
4. **Variants.**
   - The set of pitches is walked in ascending order. Every pitch other
     than the base note gets a derived file name
     `<name minus its last 4 characters>Shifted<delta>.wav` in the map.
   - Each such pitch also gets one `pitch -i … -o … -a <delta>` command
     (`Pipeline.ShiftLoop`, `Pipeline.Pipeline.ResolveVariants`).
5. **Manifest.** `w.txt` is truncated, and one line
   `<file> <time> <volume>\n` is written per record, in extraction order
   (`Pipeline.Pipeline.WriteManifest`).
6. **Mixing.** The mixer `wavCompositorExtended` runs on the manifest
   (`Pipeline.Pipeline.RunMixer`).
7. **Cleanup.**
   - Every file in the map gets one `rmfile` call, in ascending key order.
   - `rmfile` tries `remove()` first. When that fails, it runs
     `del /f` or `rm -f` and returns that command's exit status.
   - A nonzero result is reported, and the loop goes on
     (`Pipeline.RemoveFile`, `Pipeline.RemoveVariants`,
     `Pipeline.Pipeline.CleanUp`).

The class `Pipeline.Pipeline` holds `main`'s state:
- the record buffer (an `array`) and `notesIndex`;
- the pitch set `notesUsed` and the map `wavFiles`;
- the manifest lines, the command lines passed to `system()`, the failures reported;
- the set of paths on disk.

Its stage methods follow the loops of `main`. `Run` chains them and is
proved equal to the ghost function `RunSpec`, which composes the
specification functions of the modules:
- `Notes`: extraction;
- `Variants`: names, map and shift commands;
- `Manifest`: the manifest lines;
- `Cleanup`: rmfile and the cleanup loop;
- `Ordered`: the ascending iteration order of `std::set` and `std::map`;
- `Decimal`: `std::to_string` of integers.

The outside world is abstract:
- `shell` gives the exit status of each command line.
- A pitch-shift or mixer command with status 0 has written its output file.
- `locked` is the set of paths `remove()` cannot delete.
- `showTime` stands for `std::to_string` of a float start time.

Three facts about the code shape the model:
- The resolved track number is not range-checked. An out-of-range track is
  undefined behaviour, so `Run` requires the track to be in range.
- The manifest `w.txt` is never deleted: cleanup walks only the map, and the
  map never holds `w.txt` (`Pipeline.RunKeepsManifest`).
- The shift commands read the original input sample, not the working copy
  `Shift0.wav`.

## Model

| member | source | states |
|---|---|---|
| Notes.ResolveTrack | midi2.cpp:192-196 | a non-negative track number is kept and a negative one counts from the end; the result is a valid track exactly when the number lies in [-tracks, tracks) |
| Notes.Reduce | midi2.cpp:224-233 | a note-on becomes the record (byte 1, byte 2, seconds) |
| Notes.Pitches | midi2.cpp:226 | the pitch set is the set of the records' notes |
| Notes.NonNoteOnCount | midi2.cpp:239 | the number of events that are not note-ons |
| Notes.NoteOns | midi2.cpp:214-237 | no more records than events (notesIndex never passes notesCount) |
| Notes.NoteOnsIndices | midi2.cpp:218-237 | the records are exactly the note-on events of the track, in event order, each reduced to (byte 1, byte 2, seconds): a strictly increasing index list covers every note-on and nothing else |
| Notes.NoteOnsCount | midi2.cpp:214-239 | the reported count notesCount - notesIndex is the number of events that are not note-ons |
| Notes.NoteOnsStep | midi2.cpp:218-237 | one step of the scan appends the event's record and inserts its pitch exactly when it is a note-on |
| Notes.PitchesSnoc | midi2.cpp:226 | inserting a record's pitch adds exactly that pitch to the set |
| Decimal.IntToString | midi2.cpp:248 | the decimal text of an integer is never empty |
| Decimal.IntToStringShape | midi2.cpp:248 | the text begins with '-' exactly for negative numbers, and the rest is digits |
| Decimal.IntRoundTrip | midi2.cpp:248 | parsing the decimal text gives the number back |
| Decimal.IntToStringInjective | midi2.cpp:248 | distinct numbers have distinct decimal texts |
| Variants.CommandLine | midi2.cpp:250-253 | the exact command texts given to `system()`: the `pitch` command here, the mixer command of line 296 and the forced delete of lines 315-320 |
| Variants.Stem | midi2.cpp:251 | the input name without its last four characters |
| Variants.ShiftedName | midi2.cpp:251-255 | stem, "Shifted", the delta's decimal text, ".wav" |
| Variants.ShiftMap | midi2.cpp:240-255 | the map entries the shift loop adds: each pitch other than the base note to its shifted name |
| Variants.VariantMap | midi2.cpp:206-255 | the whole map: the base note to "Shift0.wav", plus the shift loop's entries |
| Variants.ShiftCommands | midi2.cpp:240-256 | the pitch commands issued over a pitch sequence, none for delta 0 |
| Variants.Produced | midi2.cpp:256 | the outputs of the commands whose status is 0 |
| Variants.StemSpec | midi2.cpp:251 | the stem plus the last four characters is the name; a name shorter than four characters is kept whole (the unsigned size - 4 wraps and substr clamps) |
| Variants.ShiftedNameShape | midi2.cpp:251-255 | a shifted name is the stem, then "Shifted", then exactly the delta's decimal text, then ".wav"; it is at least 12 characters and longer than the input name |
| Variants.ShiftedNameReserved | midi2.cpp:251-255 | no shifted name equals "Shift0.wav", "w.txt" or the input sample |
| Variants.ShiftedNameInjective | midi2.cpp:248-255 | distinct deltas give distinct file names |
| Variants.ShiftMapAdd | midi2.cpp:243-255 | visiting one more pitch maps it to its shifted file, unless it is the base note |
| Variants.VariantMapKeys | midi2.cpp:206-255 | the map's keys are exactly the pitch set plus the base note |
| Variants.VariantMapAt | midi2.cpp:206-255 | the base note maps to "Shift0.wav" and every other pitch p to the shifted name for p - baseNote |
| Variants.VariantMapInjective | midi2.cpp:206-255 | no two pitches share a sample file |
| Variants.VariantFiles | midi2.cpp:206-255 | "w.txt" is never a map value; the input sample is one only when its path string is "Shift0.wav" |
| Variants.ShiftCommandsSnoc | midi2.cpp:240-256 | visiting one more pitch appends its pitch command, or nothing for delta 0 |
| Variants.ShiftCommandsAt | midi2.cpp:250-256 | the i-th command reads the input sample and writes the shifted file of the i-th nonzero delta, with that delta |
| Variants.ShiftDeltasFrom | midi2.cpp:243-247 | every delta used is nonzero and comes from a pitch that was visited |
| Variants.ShiftDeltasAbove | midi2.cpp:240-248 | over increasing pitches, no delta lies below that of the first pitch |
| Variants.ShiftDeltasIncreasing | midi2.cpp:240-248 | over increasing pitches the deltas strictly increase |
| Variants.ShiftDeltasComplete | midi2.cpp:240-248 | every visited pitch other than the base note contributes its delta |
| Variants.ShiftDeltasPerPitch | midi2.cpp:240-248 | over the ascending set there is one delta per pitch other than the base note |
| Variants.ShiftCommandsDistinct | midi2.cpp:240-256 | the commands of a run come in strictly increasing delta order; none has delta 0; no two share a delta or an output file |
| Variants.ShiftCommandFor | midi2.cpp:240-256 | every pitch of the set other than the base note gets its pitch command |
| Variants.ShiftCommandFrom | midi2.cpp:240-256 | every command reads the input, carries a nonzero delta of a visited pitch and writes that delta's file |
| Variants.ShiftCommandOrigin | midi2.cpp:240-256 | the same, for the commands over the ascending pitch set |
| Variants.ShiftCommandsCount | midi2.cpp:240-256 | the number of commands is the number of visited pitches minus the visits of the base note |
| Variants.ShiftCommandsPerPitch | midi2.cpp:240-256 | exactly one command per pitch of the set other than the base note |
| Variants.ProducedSnoc | midi2.cpp:256 | a successful command adds its output file to the files produced, and a failed one adds nothing |
| Ordered.Ascending | midi2.cpp:240 | the iteration order of std::set and of std::map keys, as the unique ascending listing |
| Ordered.AscendingSpec | midi2.cpp:240 | the iteration order of the set lists each element once, in strictly increasing order |
| Ordered.AscendingStep | midi2.cpp:240 | the iteration starts with the least element, then visits the rest in order |
| Ordered.WalkEnd | midi2.cpp:240 | a walk that always takes the least unvisited element, once it has visited everything, is the iteration order |
| Manifest.Lookup | midi2.cpp:283-284 | operator[] on the map: the mapped file, or "" for a missing pitch |
| Manifest.WithInserted | midi2.cpp:283-284 | the map after operator[] has inserted "" for every missing pitch of the records |
| Manifest.ManifestLine | midi2.cpp:284 | `<file> <time> <volume>\n` |
| Manifest.ManifestLines | midi2.cpp:279-292 | the manifest lines of the records in order, read through operator[] |
| Manifest.ManifestLineAt | midi2.cpp:279-292 | the manifest has one line per record, and line k is the line of record k, in extraction order |
| Manifest.ManifestLineShape | midi2.cpp:284 | each line starts with its file and a space, and ends with a newline |
| Manifest.ManifestVolumeRoundTrip | midi2.cpp:284 | the last field of a line, before the newline, is the velocity's decimal text, which parses back to the velocity |
| Manifest.WithInsertedNone | midi2.cpp:283-284 | when every pitch has a map entry, operator[] inserts nothing |
| Manifest.WithInsertedSnoc | midi2.cpp:283-284 | reading one record through operator[] inserts "" only for a missing pitch, and reads what the map held before |
| Cleanup.Removable | midi2.cpp:311 | remove() succeeds: the path exists and is not locked |
| Cleanup.Clean | midi2.cpp:300-306 | the cleanup loop over a sequence of paths: commands run, failures reported, files left |
| Cleanup.CleanupOrder | midi2.cpp:300-302 | the map's files in ascending key order |
| Cleanup.RmFile | midi2.cpp:309-327 | rmfile runs nothing, returns 0 and deletes the path exactly when remove() can; otherwise it runs exactly the forced delete, returns its status, and deletes the path on status 0 and nothing on any other status; it never touches another file |
| Cleanup.CleanSnoc | midi2.cpp:300-306 | one more visited file appends that rmfile's commands, and also the file when rmfile fails |
| Cleanup.CleanFrame | midi2.cpp:300-306 | the cleanup loop only deletes, and only the files it visits |
| Cleanup.CleanReported | midi2.cpp:300-306 | a visited file still present afterwards has been reported |
| Cleanup.CleanReportsGiven | midi2.cpp:300-306 | only visited files are reported; every command run is a forced delete of a visited file; there are no more reports than forced deletes, and no more forced deletes than files |
| Cleanup.CleanSettles | midi2.cpp:300-327 | after cleanup, a visited file is gone, or remove() cannot delete it and its forced delete fails |
| Cleanup.CleanSettledUnchanged | midi2.cpp:300-327 | cleanup of files in that settled state deletes nothing |
| Cleanup.CleanIdempotent | midi2.cpp:300-327 | a second cleanup deletes nothing more |
| Cleanup.CleanReportsOnlyKnown | midi2.cpp:300-327 | when the forced delete of every path outside a set exits with 0, as `rm -f` does for a missing path, every reported failure lies in that set |
| Cleanup.CleanAgainReportsLeftovers | midi2.cpp:300-327 | a second cleanup deletes nothing more, and when forced deletes of missing paths exit with 0 it reports only files that survived the first |
| Cleanup.ValuesAt | midi2.cpp:300-302 | one file per key visited |
| Cleanup.ValuesAtSnoc | midi2.cpp:300-302 | visiting one more key appends its file |
| Cleanup.ValuesAtIndex | midi2.cpp:300-302 | the i-th file visited is the map's value at the i-th key |
| Cleanup.CleanupOrderAt | midi2.cpp:300-302 | the loop visits one file per map entry: at position i, the value of the i-th smallest key |
| Cleanup.CleanupOrderValues | midi2.cpp:300-302 | the loop visits only files the map holds |
| Cleanup.CleanupOrderCovers | midi2.cpp:300-302 | every map entry's file is visited |
| Cleanup.CleanTargetsValues | midi2.cpp:300-321 | cleanup of the map runs only forced deletes of its files and reports only its files |
| Pipeline.MixedOutput | midi2.cpp:296 | the mixer's output path, the output name plus ".wav" |
| Pipeline.FilesBeforeCleanup | midi2.cpp:199-298 | the paths on disk once the mixer has run |
| Pipeline.RunSpec | midi2.cpp:192-307 | the whole run as a function of the track and the outside world |
| Pipeline.Pipeline.constructor | midi2.cpp:197-199 | main starts with an empty pitch set and map, and nothing run |
| Pipeline.Pipeline.CopyReference | midi2.cpp:202-206 | "Shift0.wav" now exists and the base note maps to it; nothing else changes |
| Pipeline.ScanTrack | midi2.cpp:218-237 | the buffer's filled prefix is exactly the note-on records, the rest stays zeroed, and the set gains exactly their pitches |
| Pipeline.Pipeline.ExtractNotes | midi2.cpp:214-239 | a fresh buffer of one slot per event; its first notesIndex slots are the note-on records and the rest are zero; the non-note-on count is notesCount - notesIndex; the pitch set gains exactly the records' pitches |
| Pipeline.SortedElements | midi2.cpp:240 | lists the set in its iteration order |
| Pipeline.ElementsOf | midi2.cpp:240 | that listing holds exactly the set's elements |
| Pipeline.ShiftLoop | midi2.cpp:240-265 | the commands issued are the shift commands of the visited pitches, in order; the files made are their successful outputs; the map entries are the shifted files of the visited pitches other than the base note |
| Pipeline.Pipeline.ResolveVariants | midi2.cpp:240-265 | the shift loop over the ascending pitch set: the commands, the new files and the new map entries, with nothing else changed |
| Pipeline.Pipeline.WriteManifest | midi2.cpp:272-292 | "w.txt" exists and holds one line per stored record, in order, each read through operator[] on the map |
| Pipeline.Pipeline.RunMixer | midi2.cpp:296-298 | one mixer command is appended, and its output exists when it succeeds |
| Pipeline.RemoveFile | midi2.cpp:309-327 | rmfile's status, commands and remaining files are those of Cleanup.RmFile |
| Pipeline.RemoveVariants | midi2.cpp:300-306 | the loop over the given keys gives the commands, failures and files of Cleanup.Clean over their files |
| Pipeline.Pipeline.CleanUp | midi2.cpp:299-306 | cleanup over the map in ascending key order: the files left, commands and failures of Cleanup.Clean; the map is unchanged |
| Pipeline.Pipeline.Prepare | midi2.cpp:199-265 | after the copy, the extraction and the shift loop: the records, the pitch set, the map and the shift commands of the track |
| Pipeline.Pipeline.Run | midi2.cpp:192-307 | a run leaves exactly the records, map, manifest, command trace, failures and files given by RunSpec for the chosen track |
| Pipeline.RunDeletesOnlyVariants | midi2.cpp:299-306 | a run deletes only map files: anything on disk before cleanup that is not a map file survives |
| Pipeline.RunKeepsManifest | midi2.cpp:274-306 | "w.txt" exists after the run |
| Pipeline.RunKeepsInput | midi2.cpp:202-306 | the input sample survives the run unless its path string is "Shift0.wav" |
| Pipeline.RunKeepsMixedOutput | midi2.cpp:296-306 | a successful mix leaves its output, unless the output has a map file's name |
| Pipeline.RunReportsLeftovers | midi2.cpp:300-327 | every pitch of the track and the base note has a map file; if that file is still on disk after the run, it was reported, remove() cannot delete it, and its forced delete failed |
| Pipeline.RunManifestLine | midi2.cpp:279-292 | the run's manifest has one line per record, and line k names the map's file for record k's pitch |
| Pipeline.RunCommands | midi2.cpp:240-321 | a run's trace is: one pitch command per pitch other than the base note, each reading the input; then the mixer; then only forced deletes of map files; every failure is a map file; there are fewer failures than commands after the shifts |
| Pipeline.TraceShape | midi2.cpp:256-321 | in a trace made of shifts, the mixer, then forced deletes, each position holds the command of its phase |
| Pipeline.CleanupVisitsOnce | midi2.cpp:300-306 | cleanup visits each sample file at most once |
| Pipeline.ThreeNotesExtract | midi2.cpp:218-237 | the note-ons 60, 64, 60 give three records in event order and the pitch set {60, 64} |
| Pipeline.ThreeNotesResolve | midi2.cpp:240-256 | with base note 60, the pitch set {60, 64} needs one shift, by +4, and gives a map of two entries |
| Pipeline.ThreeNotesRun | midi2.cpp:192-307 | that run has two map entries, three manifest lines, and the trace starts with the one +4 shift followed by the mixer |

## Left out

- MIDI reading and time analysis (`MidiFile::read`, `doTimeAnalysis`, `linkNotePairs`) belong to the midifile library. A track is given as a sequence of events that carry the note-on flag, bytes 1 and 2, and the elapsed seconds.
- Command-line parsing, the help text and the `fileExists` checks (midi2.cpp:40-43, 66-190) are not modelled. The track number, base note, sample rate, input name and output name are constructor or method parameters.
- All console output (`std::cout`, `std::cerr`) is left out, including the printed command lines and the "could not delete" messages. A failure report is an entry in `failures`.
- Floating point: the start time is an opaque `Seconds` value. Its `std::to_string` text is the parameter `showTime`.
- External processes: the `pitch` and `wavCompositorExtended` tools and the forced-delete shell are not modelled beyond their exit status, which is the oracle `shell` applied to the exact command line. A pitch or mixer command with status 0 is taken to have written its output file. Nothing is modelled about audio content.
- File I/O:
  - The binary copy to `Shift0.wav` is modelled as that path existing afterwards. An `ofstream` opened with `trunc` creates the file even when the input cannot be read.
  - Writing `w.txt` is modelled as the path existing plus the list of lines. A failure to open either file is not modelled.
- Memory handling: `delete[]` of the buffer and the unused `fileForVideo` stream are not modelled. `new` plus `memset` is modelled as a fresh array of zero records.
- The commented-out video feature is not modelled.
- Paths are strings: two different strings naming the same file (`./a.wav` and `a.wav`, or names differing only in case on Windows) are different paths in the model. A forced delete with status 0 is taken to have removed its path.
- Cleanup.CleanIdempotent: states only that a second cleanup deletes nothing more. What it reports depends on the exit status of a forced delete of a missing path, which the oracle leaves open; Cleanup.CleanAgainReportsLeftovers states the report under the `rm -f` convention that such a delete exits with 0.
- `remove()`: it succeeds exactly on existing paths outside the set `locked`. Permission, directory and other OS failures are folded into `locked`.
- Pipeline.Pipeline.Run: requires the resolved track number to be in range. The code does no range check, and an out-of-range track is undefined behaviour there.
- Integer width: the sum `tracks + midiTrack` and the delta `note - baseNote` are unbounded in the model. Overflow of the C++ `int`, which needs extreme command-line values, is not modelled.
- Iteration: the loops over `std::set` and `std::map` are modelled by computing the ascending order first (Pipeline.SortedElements) and then looping over it. Iterator invalidation cannot arise here, because the shift loop changes only the map and the cleanup loop changes nothing it walks.
- Pipeline.ShiftLoop and Pipeline.RemoveVariants: these run the loops of `main` over local values rather than over the class fields. The stage methods then store the results in the fields, so the intermediate field states inside the loop bodies are not stated.
