/**
  The effect of create_csv_file on the file map, one record at a time and
  over a whole fetched batch, with the properties the batch loop relies on.
  Files are a map from path to the rows written there.
 */
module Persistence {
  import opened Wrappers
  import opened Values
  import opened Dates
  import opened Todos

  type Files = map<string, seq<Row>>

  /** Where one pass writes: the storage folder, the clock's date, and the paths open() refuses. */
  datatype Target = Target(folder: string, date: Date, unwritable: set<string>)

  /** Why create_csv_file returned False: a KeyError or an IOError it caught. */
  datatype SaveError = MissingKey(key: string) | CannotOpen(path: string)

  /** A completed write: the path and the rows now stored there. */
  datatype Written = Written(path: string, rows: seq<Row>)

  /** The outcome of create_csv_file for one record. */
  function Attempt(t: Target, r: Record): Result<Written, SaveError> {
    match Extract(r)
    case Failure(key) => Failure(MissingKey(key))
    case Success(todo) =>
      var path := FilePath(t.folder, t.date, todo.id);
      if path in t.unwritable then Failure(CannotOpen(path)) else Success(Written(path, Contents(todo)))
  }

  /** The file map after an attempt: open(path, 'w') truncates, so a write replaces the old rows. */
  function Apply(files: Files, a: Result<Written, SaveError>): Files {
    if a.Success? then files[a.value.path := a.value.rows] else files
  }

  /** The file map after attempting every record in order. */
  function SavedFiles(files: Files, t: Target, rs: seq<Record>): Files
    decreases |rs|
  {
    if rs == [] then files
    else Apply(SavedFiles(files, t, rs[..|rs| - 1]), Attempt(t, rs[|rs| - 1]))
  }

  /** Whether every call returned True (the run's success flag). */
  function AllSaved(t: Target, rs: seq<Record>): bool
    decreases |rs|
  {
    rs == [] || (AllSaved(t, rs[..|rs| - 1]) && Attempt(t, rs[|rs| - 1]).Success?)
  }

  /** The failures, in the order the records were attempted. */
  function Failures(t: Target, rs: seq<Record>): seq<SaveError>
    decreases |rs|
  {
    if rs == [] then []
    else
      var a := Attempt(t, rs[|rs| - 1]);
      Failures(t, rs[..|rs| - 1]) + (if a.Failure? then [a.error] else [])
  }

  /** The records whose attempt succeeds, in order. */
  function Writable(t: Target, rs: seq<Record>): seq<Record>
    decreases |rs|
  {
    if rs == [] then []
    else Writable(t, rs[..|rs| - 1]) + (if Attempt(t, rs[|rs| - 1]).Success? then [rs[|rs| - 1]] else [])
  }

  /** The paths written by some record of the batch. */
  function WrittenPaths(t: Target, rs: seq<Record>): set<string> {
    set i | 0 <= i < |rs| && Attempt(t, rs[i]).Success? :: Attempt(t, rs[i]).value.path
  }

  // ---- one record ----

  /** A record rejected for a missing key, or refused by open(), leaves every file as it was. */
  lemma FailedAttemptChangesNothing(files: Files, t: Target, r: Record)
    requires Attempt(t, r).Failure?
    ensures Apply(files, Attempt(t, r)) == files
    ensures Extract(r).Failure? ==> Attempt(t, r).Failure? && Attempt(t, r).error == MissingKey(Extract(r).error)
  {
  }

  /** A complete record whose path opens is stored at its dated path, and no other path changes. */
  lemma SuccessfulAttemptWritesOneFile(files: Files, t: Target, r: Record)
    requires Extract(r).Success?
    requires FilePath(t.folder, t.date, Extract(r).value.id) !in t.unwritable
    ensures var p := FilePath(t.folder, t.date, Extract(r).value.id);
            var after := Apply(files, Attempt(t, r));
      && after.Keys == files.Keys + {p}
      && after[p] == [HEADER, DataRow(Extract(r).value)]
      && forall q :: q in files && q != p ==> after[q] == files[q]
  {
  }

  /** Writing the same record twice on the same date leaves what writing it once does. */
  lemma AttemptIdempotent(files: Files, t: Target, r: Record)
    ensures Apply(Apply(files, Attempt(t, r)), Attempt(t, r)) == Apply(files, Attempt(t, r))
  {
  }

  // ---- a batch ----

  lemma WrittenPathsSnoc(t: Target, rs: seq<Record>)
    requires rs != []
    ensures var a := Attempt(t, rs[|rs| - 1]);
      WrittenPaths(t, rs) == WrittenPaths(t, rs[..|rs| - 1]) + (if a.Success? then {a.value.path} else {})
  {
    var init, a := rs[..|rs| - 1], Attempt(t, rs[|rs| - 1]);
    var extra: set<string> := if a.Success? then {a.value.path} else {};
    forall p | p in WrittenPaths(t, rs) ensures p in WrittenPaths(t, init) + extra {
      var i :| 0 <= i < |rs| && Attempt(t, rs[i]).Success? && Attempt(t, rs[i]).value.path == p;
      if i < |init| {
        assert init[i] == rs[i];
      }
    }
    forall p | p in WrittenPaths(t, init) + extra ensures p in WrittenPaths(t, rs) {
      if p in WrittenPaths(t, init) {
        var i :| 0 <= i < |init| && Attempt(t, init[i]).Success? && Attempt(t, init[i]).value.path == p;
        assert rs[i] == init[i];
      } else {
        assert Attempt(t, rs[|rs| - 1]).value.path == p;
      }
    }
  }

  /** After a batch, the files are the old ones plus one per path some record wrote. */
  lemma {:induction false} SavedFilesKeys(files: Files, t: Target, rs: seq<Record>)
    ensures SavedFiles(files, t, rs).Keys == files.Keys + WrittenPaths(t, rs)
    decreases |rs|
  {
    if rs != [] {
      SavedFilesKeys(files, t, rs[..|rs| - 1]);
      WrittenPathsSnoc(t, rs);
    }
  }

  /** A path no record wrote keeps what it had, and stays absent if it was absent. */
  lemma {:induction false} SavedFilesElsewhere(files: Files, t: Target, rs: seq<Record>, p: string)
    requires p !in WrittenPaths(t, rs)
    ensures p in SavedFiles(files, t, rs) <==> p in files
    ensures p in files ==> SavedFiles(files, t, rs)[p] == files[p]
    decreases |rs|
  {
    if rs != [] {
      WrittenPathsSnoc(t, rs);
      SavedFilesElsewhere(files, t, rs[..|rs| - 1], p);
    }
  }

  /**
    A record's rows survive to the end of the batch unless a later record writes
    the same path; failures of other records, before or after, do not matter.
   */
  lemma {:induction false} LastWriteWins(files: Files, t: Target, rs: seq<Record>, i: int)
    requires 0 <= i < |rs| && Attempt(t, rs[i]).Success?
    requires forall j :: i < j < |rs| && Attempt(t, rs[j]).Success? ==>
               Attempt(t, rs[j]).value.path != Attempt(t, rs[i]).value.path
    ensures var w := Attempt(t, rs[i]).value;
      w.path in SavedFiles(files, t, rs) && SavedFiles(files, t, rs)[w.path] == w.rows
    decreases |rs|
  {
    if i < |rs| - 1 {
      var init := rs[..|rs| - 1];
      assert init[i] == rs[i];
      forall j | i < j < |init| && Attempt(t, init[j]).Success?
        ensures Attempt(t, init[j]).value.path != Attempt(t, init[i]).value.path
      {
        assert init[j] == rs[j];
      }
      LastWriteWins(files, t, init, i);
    }
  }

  /** On every path the batch writes, the earlier contents of the map are forgotten. */
  lemma {:induction false} SavedFilesForget(f1: Files, f2: Files, t: Target, rs: seq<Record>, p: string)
    requires p in WrittenPaths(t, rs)
    ensures p in SavedFiles(f1, t, rs) && p in SavedFiles(f2, t, rs)
    ensures SavedFiles(f1, t, rs)[p] == SavedFiles(f2, t, rs)[p]
    decreases |rs|
  {
    WrittenPathsSnoc(t, rs);
    var a := Attempt(t, rs[|rs| - 1]);
    if !(a.Success? && a.value.path == p) {
      SavedFilesForget(f1, f2, t, rs[..|rs| - 1], p);
    }
  }

  /** Running the same batch again on the same date yields the same files (overwrite, not duplicate). */
  lemma SaveTwice(files: Files, t: Target, rs: seq<Record>)
    ensures SavedFiles(SavedFiles(files, t, rs), t, rs) == SavedFiles(files, t, rs)
  {
    var once := SavedFiles(files, t, rs);
    var twice := SavedFiles(once, t, rs);
    SavedFilesKeys(files, t, rs);
    SavedFilesKeys(once, t, rs);
    forall p | p in once ensures twice[p] == once[p] {
      if p in WrittenPaths(t, rs) {
        SavedFilesForget(once, files, t, rs, p);
      } else {
        SavedFilesElsewhere(once, t, rs, p);
      }
    }
  }

  lemma SavedFilesSnoc(files: Files, t: Target, rs: seq<Record>, r: Record)
    ensures SavedFiles(files, t, rs + [r]) == Apply(SavedFiles(files, t, rs), Attempt(t, r))
  {
    assert (rs + [r])[..|rs|] == rs;
  }

  /** A failing record influences nothing: the batch ends as if only the writable records were there. */
  lemma {:induction false} FailuresAreSkipped(files: Files, t: Target, rs: seq<Record>)
    ensures SavedFiles(files, t, rs) == SavedFiles(files, t, Writable(t, rs))
    decreases |rs|
  {
    if rs != [] {
      var init, last := rs[..|rs| - 1], rs[|rs| - 1];
      FailuresAreSkipped(files, t, init);
      assert SavedFiles(files, t, rs) == Apply(SavedFiles(files, t, init), Attempt(t, last));
      if Attempt(t, last).Success? {
        assert Writable(t, rs) == Writable(t, init) + [last];
        SavedFilesSnoc(files, t, Writable(t, init), last);
      } else {
        assert Writable(t, rs) == Writable(t, init);
      }
    }
  }

  /** The success flag stays true exactly when every record was saved. */
  lemma {:induction false} AllSavedIff(t: Target, rs: seq<Record>)
    ensures AllSaved(t, rs) <==> forall i :: 0 <= i < |rs| ==> Attempt(t, rs[i]).Success?
    decreases |rs|
  {
    if rs != [] {
      var init := rs[..|rs| - 1];
      AllSavedIff(t, init);
      assert forall i :: 0 <= i < |init| ==> init[i] == rs[i];
    }
  }

  /** No failure is reported exactly when the success flag survives. */
  lemma {:induction false} NoFailuresIff(t: Target, rs: seq<Record>)
    ensures Failures(t, rs) == [] <==> AllSaved(t, rs)
    decreases |rs|
  {
    if rs != [] {
      NoFailuresIff(t, rs[..|rs| - 1]);
    }
  }

  /**
    N complete records with distinct ids, none refused by open(), give exactly
    N files, each holding its own record's rows.
   */
  lemma {:induction false} OneFilePerRecord(files: Files, t: Target, rs: seq<Record>)
    requires forall i :: 0 <= i < |rs| ==> Extract(rs[i]).Success?
    requires forall i, j :: 0 <= i < j < |rs| ==>
               Display(Extract(rs[i]).value.id) != Display(Extract(rs[j]).value.id)
    requires t.unwritable == {}
    ensures |SavedFiles(map[], t, rs)| == |rs|
    ensures forall i :: 0 <= i < |rs| ==>
              var p := FilePath(t.folder, t.date, Extract(rs[i]).value.id);
              p in SavedFiles(files, t, rs) && SavedFiles(files, t, rs)[p] == Contents(Extract(rs[i]).value)
  {
    forall i, j | 0 <= i < j < |rs|
      ensures Attempt(t, rs[i]).value.path != Attempt(t, rs[j]).value.path
    {
      FilePathInjective(t.folder, t.date, Extract(rs[i]).value.id, Extract(rs[j]).value.id);
    }
    WrittenPathsCount(t, rs);
    SavedFilesKeys(map[], t, rs);
    forall i | 0 <= i < |rs|
      ensures var p := FilePath(t.folder, t.date, Extract(rs[i]).value.id);
              p in SavedFiles(files, t, rs) && SavedFiles(files, t, rs)[p] == Contents(Extract(rs[i]).value)
    {
      LastWriteWins(files, t, rs, i);
    }
  }

  lemma {:induction false} WrittenPathsCount(t: Target, rs: seq<Record>)
    requires forall i :: 0 <= i < |rs| ==> Attempt(t, rs[i]).Success?
    requires forall i, j :: 0 <= i < j < |rs| ==> Attempt(t, rs[i]).value.path != Attempt(t, rs[j]).value.path
    ensures |WrittenPaths(t, rs)| == |rs|
    decreases |rs|
  {
    if rs != [] {
      var init := rs[..|rs| - 1];
      assert forall i :: 0 <= i < |init| ==> init[i] == rs[i];
      WrittenPathsCount(t, init);
      WrittenPathsSnoc(t, rs);
    }
  }
}
