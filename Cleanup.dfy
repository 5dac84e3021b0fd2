// Cleanup (midi2.cpp:299-306, 309-327): every sample file the map names is
// deleted, in ascending key order of the map. rmfile first tries the C
// library's remove(); when that fails it runs the platform's forced delete
// ("del /f" on Windows, "rm -f" elsewhere) and returns that command's exit
// status. A nonzero result is reported as a failure and the loop moves on.
//
// The file system is abstract: files is the set of paths that exist, locked
// the paths remove() cannot delete, and shell gives the exit status of a
// command line; a forced delete with status 0 leaves the path absent.
module Cleanup {
  import opened Ordered
  import opened Variants

  /** remove() deletes a path exactly when it exists and is not locked. */
  predicate Removable(path: string, files: set<string>, locked: set<string>) {
    path in files && path !in locked
  }

  /** One call of rmfile: its return value, the commands it ran, the files left. */
  datatype RmResult = RmResult(status: int, ran: seq<Command>, files: set<string>)

  function RmFile(path: string, files: set<string>, locked: set<string>,
                  shell: string -> int, windows: bool): (r: RmResult)
    ensures r.files <= files && r.files + {path} >= files
    ensures r.status == 0 ==> path !in r.files
    ensures r.ran == [] <==> Removable(path, files, locked)
    ensures r.ran != [] ==> r.ran == [ForceDelete(path)] && r.status == shell(CommandLine(ForceDelete(path), windows))
    ensures Removable(path, files, locked) ==> r.status == 0 && r.files == files - {path}
    ensures !Removable(path, files, locked) ==> r.files == (if r.status == 0 then files - {path} else files)
  {
    if Removable(path, files, locked) then RmResult(0, [], files - {path})
    else
      var status := shell(CommandLine(ForceDelete(path), windows));
      RmResult(status, [ForceDelete(path)], if status == 0 then files - {path} else files)
  }

  /** What the cleanup loop leaves behind: the commands run, the failures reported, the files left. */
  datatype Outcome = Outcome(ran: seq<Command>, failures: seq<string>, files: set<string>)

  /** rmfile applied to each path in turn. */
  function Clean(paths: seq<string>, files: set<string>, locked: set<string>,
                 shell: string -> int, windows: bool): Outcome
    decreases |paths|
  {
    if paths == [] then Outcome([], [], files)
    else
      var step := RmFile(paths[0], files, locked, shell, windows);
      var rest := Clean(paths[1..], step.files, locked, shell, windows);
      Outcome(step.ran + rest.ran, (if step.status != 0 then [paths[0]] else []) + rest.failures, rest.files)
  }

  /** The loop's step: one more path appends that rmfile's commands and, when it fails, the path. */
  lemma {:induction false} CleanSnoc(paths: seq<string>, p: string, files: set<string>, locked: set<string>,
                                     shell: string -> int, windows: bool)
    ensures var done := Clean(paths, files, locked, shell, windows);
      var step := RmFile(p, done.files, locked, shell, windows);
      Clean(paths + [p], files, locked, shell, windows)
        == Outcome(done.ran + step.ran, done.failures + (if step.status != 0 then [p] else []), step.files)
    decreases |paths|
  {
    if paths == [] {
      assert ([p])[1..] == [];
    } else {
      assert (paths + [p])[0] == paths[0] && (paths + [p])[1..] == paths[1..] + [p];
      var first := RmFile(paths[0], files, locked, shell, windows);
      CleanSnoc(paths[1..], p, first.files, locked, shell, windows);
    }
  }

  /** Cleanup only deletes, and only the paths it is given. */
  lemma {:induction false} CleanFrame(paths: seq<string>, files: set<string>, locked: set<string>,
                                      shell: string -> int, windows: bool)
    ensures Clean(paths, files, locked, shell, windows).files <= files
    ensures forall f :: f in files && f !in paths ==> f in Clean(paths, files, locked, shell, windows).files
    decreases |paths|
  {
    if paths != [] {
      var step := RmFile(paths[0], files, locked, shell, windows);
      CleanFrame(paths[1..], step.files, locked, shell, windows);
      forall f | f in files && f !in paths
        ensures f in Clean(paths, files, locked, shell, windows).files
      {
        assert f != paths[0] && f !in paths[1..];
      }
    }
  }

  /** A given path that is still on disk afterwards has been reported as a failure. */
  lemma {:induction false} CleanReported(paths: seq<string>, files: set<string>, locked: set<string>,
                                         shell: string -> int, windows: bool, i: int)
    requires 0 <= i < |paths|
    requires paths[i] in Clean(paths, files, locked, shell, windows).files
    ensures paths[i] in Clean(paths, files, locked, shell, windows).failures
    decreases |paths|
  {
    var step := RmFile(paths[0], files, locked, shell, windows);
    var rest := Clean(paths[1..], step.files, locked, shell, windows);
    if i == 0 {
      CleanFrame(paths[1..], step.files, locked, shell, windows);
      assert step.status != 0;
    } else {
      assert paths[i] == paths[1..][i - 1];
      CleanReported(paths[1..], step.files, locked, shell, windows, i - 1);
    }
  }

  /** Only given paths are reported, and every command run is a forced delete of a given path. */
  lemma {:induction false} CleanReportsGiven(paths: seq<string>, files: set<string>, locked: set<string>,
                                             shell: string -> int, windows: bool)
    ensures var r := Clean(paths, files, locked, shell, windows);
      && (forall k :: 0 <= k < |r.failures| ==> r.failures[k] in paths)
      && (forall k :: 0 <= k < |r.ran| ==> r.ran[k].ForceDelete? && r.ran[k].path in paths)
      && |r.failures| <= |r.ran| <= |paths|
    decreases |paths|
  {
    if paths != [] {
      var step := RmFile(paths[0], files, locked, shell, windows);
      var rest := Clean(paths[1..], step.files, locked, shell, windows);
      CleanReportsGiven(paths[1..], step.files, locked, shell, windows);
      var r := Clean(paths, files, locked, shell, windows);
      var head := if step.status != 0 then [paths[0]] else [];
      forall k | 0 <= k < |r.failures| ensures r.failures[k] in paths {
        if k >= |head| {
          assert r.failures[k] == rest.failures[k - |head|];
          assert rest.failures[k - |head|] in paths[1..];
        }
      }
      forall k | 0 <= k < |r.ran| ensures r.ran[k].ForceDelete? && r.ran[k].path in paths {
        if k >= |step.ran| {
          assert r.ran[k] == rest.ran[k - |step.ran|];
          assert rest.ran[k - |step.ran|].path in paths[1..];
        }
      }
    }
  }

  /** After cleanup, each given path is gone or survives a forced delete that fails. */
  predicate Settled(paths: seq<string>, files: set<string>, locked: set<string>,
                    shell: string -> int, windows: bool)
  {
    forall i :: 0 <= i < |paths| && paths[i] in files ==>
      paths[i] in locked && shell(CommandLine(ForceDelete(paths[i]), windows)) != 0
  }

  lemma {:induction false} CleanSettles(paths: seq<string>, files: set<string>, locked: set<string>,
                                        shell: string -> int, windows: bool)
    ensures Settled(paths, Clean(paths, files, locked, shell, windows).files, locked, shell, windows)
    decreases |paths|
  {
    if paths != [] {
      var step := RmFile(paths[0], files, locked, shell, windows);
      var left := Clean(paths, files, locked, shell, windows).files;
      CleanSettles(paths[1..], step.files, locked, shell, windows);
      CleanFrame(paths[1..], step.files, locked, shell, windows);
      forall i | 0 <= i < |paths| && paths[i] in left
        ensures paths[i] in locked && shell(CommandLine(ForceDelete(paths[i]), windows)) != 0
      {
        if i > 0 {
          assert paths[i] == paths[1..][i - 1];
        }
      }
    }
  }

  lemma {:induction false} CleanSettledUnchanged(paths: seq<string>, files: set<string>, locked: set<string>,
                                                 shell: string -> int, windows: bool)
    requires Settled(paths, files, locked, shell, windows)
    ensures Clean(paths, files, locked, shell, windows).files == files
    decreases |paths|
  {
    if paths != [] {
      var step := RmFile(paths[0], files, locked, shell, windows);
      assert step.files == files;
      forall i | 0 <= i < |paths[1..]| && paths[1..][i] in files
        ensures paths[1..][i] in locked && shell(CommandLine(ForceDelete(paths[1..][i]), windows)) != 0
      {
        assert paths[1..][i] == paths[i + 1];
      }
      CleanSettledUnchanged(paths[1..], files, locked, shell, windows);
    }
  }

  /** Running the cleanup a second time deletes nothing more. */
  lemma CleanIdempotent(paths: seq<string>, files: set<string>, locked: set<string>,
                        shell: string -> int, windows: bool)
    ensures var once := Clean(paths, files, locked, shell, windows).files;
      Clean(paths, once, locked, shell, windows).files == once
  {
    CleanSettles(paths, files, locked, shell, windows);
    CleanSettledUnchanged(paths, Clean(paths, files, locked, shell, windows).files, locked, shell, windows);
  }

  /**
   * When the forced delete of any path outside known exits with 0, as "rm -f"
   * does for a path that is not on disk, every path cleanup reports failing
   * is in known.
   */
  lemma {:induction false} CleanReportsOnlyKnown(paths: seq<string>, files: set<string>, known: set<string>,
                                                 locked: set<string>, shell: string -> int, windows: bool)
    requires forall p :: p !in known ==> shell(CommandLine(ForceDelete(p), windows)) == 0
    ensures forall k :: 0 <= k < |Clean(paths, files, locked, shell, windows).failures| ==>
      Clean(paths, files, locked, shell, windows).failures[k] in known
    decreases |paths|
  {
    if paths != [] {
      var step := RmFile(paths[0], files, locked, shell, windows);
      var rest := Clean(paths[1..], step.files, locked, shell, windows);
      CleanReportsOnlyKnown(paths[1..], step.files, known, locked, shell, windows);
      var head := if step.status != 0 then [paths[0]] else [];
      var r := Clean(paths, files, locked, shell, windows);
      forall k | 0 <= k < |r.failures| ensures r.failures[k] in known {
        if k < |head| {
          assert r.failures[k] == paths[0];
        } else {
          assert r.failures[k] == rest.failures[k - |head|];
        }
      }
    }
  }

  /**
   * A second cleanup is harmless: it deletes nothing more, and when the forced
   * delete of an absent path exits with 0, it reports only files that survived
   * the first cleanup, each of them locked with a failing forced delete.
   */
  lemma CleanAgainReportsLeftovers(paths: seq<string>, files: set<string>, locked: set<string>,
                                   shell: string -> int, windows: bool)
    requires forall p :: p !in Clean(paths, files, locked, shell, windows).files ==>
      shell(CommandLine(ForceDelete(p), windows)) == 0
    ensures var once := Clean(paths, files, locked, shell, windows).files;
      var again := Clean(paths, once, locked, shell, windows);
      && again.files == once
      && forall k :: 0 <= k < |again.failures| ==> again.failures[k] in once
  {
    var once := Clean(paths, files, locked, shell, windows).files;
    CleanIdempotent(paths, files, locked, shell, windows);
    CleanFrame(paths, files, locked, shell, windows);
    CleanReportsOnlyKnown(paths, once, once, locked, shell, windows);
  }

  /** The values of m at the keys ks, in their order. */
  function ValuesAt(m: map<int, string>, ks: seq<int>): (vs: seq<string>)
    requires forall i :: 0 <= i < |ks| ==> ks[i] in m
    ensures |vs| == |ks|
    decreases |ks|
  {
    if ks == [] then [] else [m[ks[0]]] + ValuesAt(m, ks[1..])
  }

  lemma {:induction false} ValuesAtSnoc(m: map<int, string>, ks: seq<int>, k: int)
    requires forall i :: 0 <= i < |ks| ==> ks[i] in m
    requires k in m
    ensures ValuesAt(m, ks + [k]) == ValuesAt(m, ks) + [m[k]]
    decreases |ks|
  {
    if ks == [] {
      assert ([k])[1..] == [];
    } else {
      assert (ks + [k])[0] == ks[0] && (ks + [k])[1..] == ks[1..] + [k];
      ValuesAtSnoc(m, ks[1..], k);
    }
  }

  lemma {:induction false} ValuesAtIndex(m: map<int, string>, ks: seq<int>, i: int)
    requires forall i :: 0 <= i < |ks| ==> ks[i] in m
    requires 0 <= i < |ks|
    ensures |ValuesAt(m, ks)| == |ks|
    ensures ValuesAt(m, ks)[i] == m[ks[i]]
    decreases |ks|
  {
    if i > 0 {
      ValuesAtIndex(m, ks[1..], i - 1);
    } else if |ks| > 1 {
      ValuesAtIndex(m, ks[1..], 0);
    }
  }

  /** The paths the cleanup loop visits: the map's values in ascending key order. */
  ghost function CleanupOrder(m: map<int, string>): seq<string> {
    AscendingSpec(m.Keys);
    ValuesAt(m, Ascending(m.Keys))
  }

  /**
   * The visit order lists the value of the k-th smallest key at position k,
   * so every entry of the map is visited once.
   */
  lemma CleanupOrderAt(m: map<int, string>, i: int)
    requires 0 <= i < |m|
    ensures |CleanupOrder(m)| == |Ascending(m.Keys)| == |m|
    ensures Ascending(m.Keys)[i] in m && CleanupOrder(m)[i] == m[Ascending(m.Keys)[i]]
  {
    AscendingSpec(m.Keys);
    assert |m.Keys| == |m|;
    ValuesAtIndex(m, Ascending(m.Keys), i);
  }

  /** The loop visits only files the map names. */
  lemma CleanupOrderValues(m: map<int, string>)
    ensures forall i :: 0 <= i < |CleanupOrder(m)| ==> CleanupOrder(m)[i] in m.Values
  {
    AscendingSpec(m.Keys);
    assert |m.Keys| == |m|;
    forall i | 0 <= i < |CleanupOrder(m)| ensures CleanupOrder(m)[i] in m.Values {
      CleanupOrderAt(m, i);
    }
  }

  /** Cleanup of a map runs only forced deletes of its files and reports only its files. */
  lemma CleanTargetsValues(m: map<int, string>, files: set<string>, locked: set<string>,
                           shell: string -> int, windows: bool)
    ensures var r := Clean(CleanupOrder(m), files, locked, shell, windows);
      && (forall k :: 0 <= k < |r.ran| ==> r.ran[k].ForceDelete? && r.ran[k].path in m.Values)
      && (forall k :: 0 <= k < |r.failures| ==> r.failures[k] in m.Values)
      && |r.failures| <= |r.ran| <= |m|
  {
    var order := CleanupOrder(m);
    var r := Clean(order, files, locked, shell, windows);
    CleanReportsGiven(order, files, locked, shell, windows);
    CleanupOrderValues(m);
    AscendingSpec(m.Keys);
    assert |m.Keys| == |m|;
    forall k | 0 <= k < |r.ran| ensures r.ran[k].path in m.Values {
      var q :| 0 <= q < |order| && order[q] == r.ran[k].path;
    }
    forall k | 0 <= k < |r.failures| ensures r.failures[k] in m.Values {
      var q :| 0 <= q < |order| && order[q] == r.failures[k];
    }
  }

  /** Every entry of the map is visited. */
  lemma CleanupOrderCovers(m: map<int, string>, k: int)
    requires k in m
    ensures exists i :: 0 <= i < |CleanupOrder(m)| && CleanupOrder(m)[i] == m[k]
  {
    AscendingSpec(m.Keys);
    var i :| 0 <= i < |Ascending(m.Keys)| && Ascending(m.Keys)[i] == k;
    assert |m.Keys| == |m|;
    CleanupOrderAt(m, i);
  }
}
