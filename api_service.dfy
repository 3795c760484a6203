/**
  ApiService: one fetch of the todo list, then one CSV file per record.
  The HTTP reply and the clock's date are parameters; the disk is a
  FileSystem object; what the service prints, the directory it creates and
  the request it sends are appended, in order, to its output log.
 */
module ApiServices {
  import opened Wrappers
  import opened Text
  import opened Values
  import opened Dates
  import opened Paths
  import opened Todos
  import opened Persistence
  import opened FileSystems

  const ENDPOINT: string := "https://jsonplaceholder.typicode.com/todos/"

  /** A response body: JSON that decodes to a list of records, or anything response.json() rejects. */
  datatype Body = NotJson | Json(todos: seq<Record>)

  /** What requests.get returns: no response at all (a transport error), or a status and a body. */
  datatype HttpReply = NoResponse | Response(status: int, body: Body)

  /** The statuses for which raise_for_status raises: client (4xx) and server (5xx) errors. */
  predicate IsHttpError(status: int) {
    400 <= status < 600
  }

  /** fetch_todos's result: None for every RequestException, the decoded list otherwise. */
  function FetchResult(reply: HttpReply): (r: Option<seq<Record>>)
    ensures r.Some? <==> reply.Response? && !IsHttpError(reply.status) && reply.body.Json?
    ensures r.Some? ==> r.value == reply.body.todos
  {
    match reply
    case NoResponse => None
    case Response(status, body) =>
      if IsHttpError(status) then None
      else if body.NotJson? then None
      else Some(body.todos)
  }

  /** The observable steps of a run. */
  datatype Event =
    | Started                     // print('Running ApiService')
    | MadeDirs(path: string)      // os.makedirs(storage_folder)
    | Requested(url: string)      // requests.get(self.url)
    | FetchFailed                 // print(f"Error fetching from the API: ...")
    | RecordFailed(f: SaveError)  // print(f"Error processing todo: ...")
    | Succeeded                   // print("TODOs fetched and saved as CSV files successfully")

  /** One diagnostic line per failed record, in order. */
  function Report(fails: seq<SaveError>): (r: seq<Event>)
    decreases |fails|
  {
    if fails == [] then [] else Report(fails[..|fails| - 1]) + [RecordFailed(fails[|fails| - 1])]
  }

  /** What a run emits after the request: nothing more is attempted when the fetch failed or was empty. */
  function Outcome(t: Target, todos: Option<seq<Record>>): seq<Event> {
    if todos.None? then [FetchFailed]
    else if |todos.value| == 0 then []
    else Report(Failures(t, todos.value)) + (if AllSaved(t, todos.value) then [Succeeded] else [])
  }

  /** Everything one run emits. */
  function RunEvents(existed: bool, url: string, t: Target, todos: Option<seq<Record>>): seq<Event> {
    [Started] + (if existed then [] else [MadeDirs(t.folder)]) + [Requested(url)] + Outcome(t, todos)
  }

  /** The file map after one run: records are written only when the fetch returned a non-empty list. */
  function RunFiles(files: Files, t: Target, todos: Option<seq<Record>>): Files {
    if todos.Some? && |todos.value| > 0 then SavedFiles(files, t, todos.value) else files
  }

  class ApiService {
    const url: string
    const storageFolder: string
    const fs: FileSystem
    var output: seq<Event>

    constructor (fs: FileSystem, storageFolder: string)
      ensures this.fs == fs && this.storageFolder == storageFolder
      ensures url == ENDPOINT && output == []
    {
      this.fs := fs;
      this.storageFolder := storageFolder;
      url := ENDPOINT;
      output := [];
    }

    /**
      The constructor's default: a folder named storage in cwd, the working
      directory when the class was defined (a default argument is evaluated once).
     */
    constructor WithDefaultFolder(fs: FileSystem, cwd: string)
      ensures this.fs == fs && storageFolder == DefaultStorageFolder(cwd)
      ensures url == ENDPOINT && output == []
    {
      this.fs := fs;
      storageFolder := DefaultStorageFolder(cwd);
      url := ENDPOINT;
      output := [];
    }

    /** fetch_todos: one GET of the endpoint; a failure is reported and yields None. */
    method FetchTodos(reply: HttpReply) returns (todos: Option<seq<Record>>)
      modifies this
      ensures todos == FetchResult(reply)
      ensures output == old(output) + [Requested(url)] + (if todos.None? then [FetchFailed] else [])
    {
      output := output + [Requested(url)];
      if reply.NoResponse? || IsHttpError(reply.status) || reply.body.NotJson? {
        todos := None;
        output := output + [FetchFailed];
      } else {
        todos := Some(reply.body.todos);
      }
    }

    /**
      create_csv_file: look the four keys up, then open the dated path in
      truncate mode and write the header and the data row. Returns false,
      after reporting, on a missing key or a refused open.
     */
    method CreateCsvFile(todo: Record, date: Date) returns (ok: bool)
      modifies this, fs
      ensures var a := Attempt(Target(storageFolder, date, fs.unwritable), todo);
        && ok == a.Success?
        && fs.files == Apply(old(fs.files), a)
        && output == old(output) + (if ok then [] else [RecordFailed(a.error)])
      ensures fs.dirs == old(fs.dirs)
    {
      if "id" !in todo {
        output := output + [RecordFailed(MissingKey("id"))];
        return false;
      }
      var todoId := todo["id"];
      if "userId" !in todo {
        output := output + [RecordFailed(MissingKey("userId"))];
        return false;
      }
      var userId := todo["userId"];
      if "title" !in todo {
        output := output + [RecordFailed(MissingKey("title"))];
        return false;
      }
      var title := todo["title"];
      if "completed" !in todo {
        output := output + [RecordFailed(MissingKey("completed"))];
        return false;
      }
      var completed := todo["completed"];

      var fileName := FileName(date, todoId);
      var filePath := Join(storageFolder, fileName);
      var row := DataRow(Todo(todoId, userId, title, completed));
      ok := fs.WriteRows(filePath, [HEADER, row]);
      if !ok {
        output := output + [RecordFailed(CannotOpen(filePath))];
      }
    }

    /**
      The loop of run: every record is attempted in order, a failure clears
      the success flag and the loop goes on.
     */
    method SaveAll(records: seq<Record>, date: Date) returns (success: bool)
      modifies this, fs
      ensures var t := Target(storageFolder, date, fs.unwritable);
        && success == AllSaved(t, records)
        && fs.files == SavedFiles(old(fs.files), t, records)
        && output == old(output) + Report(Failures(t, records))
      ensures fs.dirs == old(fs.dirs)
    {
      ghost var t := Target(storageFolder, date, fs.unwritable);
      success := true;
      var i := 0;
      while i < |records|
        invariant 0 <= i <= |records|
        invariant fs.files == SavedFiles(old(fs.files), t, records[..i])
        invariant fs.dirs == old(fs.dirs)
        invariant success == AllSaved(t, records[..i])
        invariant output == old(output) + Report(Failures(t, records[..i]))
      {
        var ok := CreateCsvFile(records[i], date);
        if !ok {
          success := false;
        }
        PrefixStep(old(fs.files), t, records, i);
        i := i + 1;
      }
      assert records[..i] == records;
    }

    /** The first step of run: os.makedirs(storage_folder) when nothing exists at that path. */
    method EnsureFolder()
      modifies this, fs
      ensures fs.dirs == if old(fs.Exists(storageFolder)) then old(fs.dirs) else old(fs.dirs) + Ancestors(storageFolder)
      ensures fs.files == old(fs.files)
      ensures fs.Exists(storageFolder)
      ensures output == old(output) + if old(fs.Exists(storageFolder)) then [] else [MadeDirs(storageFolder)]
    {
      if !fs.Exists(storageFolder) {
        fs.MakeDirs(storageFolder);
        output := output + [MadeDirs(storageFolder)];
      }
    }

    /**
      The rest of run: one fetch, and when it yields a non-empty list, every
      record in order and the success message if all of them were saved.
     */
    method FetchAndSave(reply: HttpReply, date: Date)
      modifies this, fs
      ensures fs.dirs == old(fs.dirs)
      ensures fs.files == RunFiles(old(fs.files), Target(storageFolder, date, fs.unwritable), FetchResult(reply))
      ensures output == old(output) + [Requested(url)] + Outcome(Target(storageFolder, date, fs.unwritable), FetchResult(reply))
      ensures old(fs.Exists(storageFolder)) ==> fs.Exists(storageFolder)
    {
      ghost var t := Target(storageFolder, date, fs.unwritable);
      ghost var prelude := output + [Requested(url)];
      var todos := FetchTodos(reply);
      if todos.Some? && |todos.value| > 0 {
        assert output == prelude + [];
        ghost var files0 := fs.files;
        var success := SaveAll(todos.value, date);
        SavedFilesKeys(files0, t, todos.value);
        ghost var report := Report(Failures(t, todos.value));
        assert output == prelude + report;
        if success {
          output := output + [Succeeded];
        }
        Associative(prelude, report, if success then [Succeeded] else []);
      }
    }

    /**
      run: make sure the folder exists, fetch once, and if the result is a
      non-empty list attempt every record in order; report success only if
      every record was saved.
     */
    method Run(reply: HttpReply, date: Date)
      modifies this, fs
      ensures fs.dirs == if old(fs.Exists(storageFolder)) then old(fs.dirs) else old(fs.dirs) + Ancestors(storageFolder)
      ensures fs.Exists(storageFolder)
      ensures fs.files == RunFiles(old(fs.files), Target(storageFolder, date, fs.unwritable), FetchResult(reply))
      ensures output == old(output) +
                RunEvents(old(fs.Exists(storageFolder)), url, Target(storageFolder, date, fs.unwritable), FetchResult(reply))
    {
      ghost var existed := fs.Exists(storageFolder);
      output := output + [Started];
      EnsureFolder();
      ghost var before := [Started] + (if existed then [] else [MadeDirs(storageFolder)]);
      ghost var prelude := output;
      assert prelude == old(output) + before;
      FetchAndSave(reply, date);
      ghost var outcome := Outcome(Target(storageFolder, date, fs.unwritable), FetchResult(reply));
      Associative(prelude, [Requested(url)], outcome);
      Associative(old(output), before, [Requested(url)] + outcome);
      Associative(before, [Requested(url)], outcome);
    }
  }

  lemma Associative<T>(a: seq<T>, b: seq<T>, c: seq<T>)
    ensures (a + b) + c == a + (b + c)
  {
  }

  /** How one more record extends each of the loop's summaries. */
  lemma PrefixStep(files: Files, t: Target, rs: seq<Record>, i: int)
    requires 0 <= i < |rs|
    ensures SavedFiles(files, t, rs[..i + 1]) == Apply(SavedFiles(files, t, rs[..i]), Attempt(t, rs[i]))
    ensures AllSaved(t, rs[..i + 1]) == (AllSaved(t, rs[..i]) && Attempt(t, rs[i]).Success?)
    ensures Report(Failures(t, rs[..i + 1])) ==
            Report(Failures(t, rs[..i])) + (if Attempt(t, rs[i]).Failure? then [RecordFailed(Attempt(t, rs[i]).error)] else [])
  {
    assert rs[..i + 1][..i] == rs[..i];
    ReportSnoc(Failures(t, rs[..i]), Attempt(t, rs[i]));
  }

  lemma ReportSnoc(fails: seq<SaveError>, a: Result<Written, SaveError>)
    ensures Report(fails + (if a.Failure? then [a.error] else [])) ==
            Report(fails) + (if a.Failure? then [RecordFailed(a.error)] else [])
  {
    if a.Failure? {
      assert (fails + [a.error])[..|fails|] == fails;
    } else {
      assert fails + [] == fails;
    }
  }

  /** The failure report holds one diagnostic per failure and nothing else. */
  lemma {:induction false} ReportIsDiagnostics(fails: seq<SaveError>)
    ensures |Report(fails)| == |fails|
    ensures forall i :: 0 <= i < |fails| ==> Report(fails)[i] == RecordFailed(fails[i])
    decreases |fails|
  {
    if fails != [] {
      ReportIsDiagnostics(fails[..|fails| - 1]);
    }
  }

  /**
    The success message is emitted exactly once when the fetch gave a non-empty
    list and every record was saved, and never otherwise.
   */
  lemma SuccessReportedIff(existed: bool, url: string, t: Target, todos: Option<seq<Record>>)
    ensures var events := RunEvents(existed, url, t, todos);
      multiset(events)[Succeeded] ==
        if todos.Some? && |todos.value| > 0 && forall i :: 0 <= i < |todos.value| ==> Attempt(t, todos.value[i]).Success?
        then 1 else 0
  {
    if todos.Some? && |todos.value| > 0 {
      var fails := Failures(t, todos.value);
      ReportIsDiagnostics(fails);
      assert Succeeded !in Report(fails);
      AllSavedIff(t, todos.value);
    }
  }

  /** A failed or empty fetch writes nothing and reports no success. */
  lemma NothingFetchedNothingWritten(files: Files, existed: bool, url: string, t: Target, todos: Option<seq<Record>>)
    requires todos.None? || todos.value == []
    ensures RunFiles(files, t, todos) == files
    ensures Succeeded !in RunEvents(existed, url, t, todos)
  {
  }

  /** The folder is created, when it is missing, before the request is sent. */
  lemma FolderBeforeRequest(existed: bool, url: string, t: Target, todos: Option<seq<Record>>)
    ensures var events := RunEvents(existed, url, t, todos);
      && events[0] == Started
      && (existed ==> events[1] == Requested(url) && MadeDirs(t.folder) !in events)
      && (!existed ==> events[1] == MadeDirs(t.folder) && events[2] == Requested(url))
  {
    var events := RunEvents(existed, url, t, todos);
    var tail := if todos.None? then [FetchFailed]
                else if |todos.value| == 0 then []
                else Report(Failures(t, todos.value)) + (if AllSaved(t, todos.value) then [Succeeded] else []);
    if existed && todos.Some? && |todos.value| > 0 {
      ReportIsDiagnostics(Failures(t, todos.value));
      assert MadeDirs(t.folder) !in tail;
    }
  }

  /** Two runs on the same date with the same reply leave the files of one run. */
  lemma RunTwice(files: Files, t: Target, todos: Option<seq<Record>>)
    ensures RunFiles(RunFiles(files, t, todos), t, todos) == RunFiles(files, t, todos)
  {
    if todos.Some? && |todos.value| > 0 {
      SaveTwice(files, t, todos.value);
    }
  }

  /** The repository's test: two complete todos give two dated files with the expected rows. */
  lemma TwoTodosScenario(files: Files)
    ensures var d: Date := CivilDate(2024, 3, 9);
            var t := Target("storage", d, {});
            var r1 := map["id" := Integer(1), "userId" := Integer(1), "title" := Str("Todo 1"), "completed" := Boolean(false)];
            var r2 := map["id" := Integer(2), "userId" := Integer(1), "title" := Str("Todo 2"), "completed" := Boolean(true)];
      RunFiles(files, t, Some([r1, r2])) ==
        files["storage/2024_03_09_1.csv" := [["id", "userId", "title", "completed"], ["1", "1", "Todo 1", "False"]]]
             ["storage/2024_03_09_2.csv" := [["id", "userId", "title", "completed"], ["2", "1", "Todo 2", "True"]]]
  {
    var d: Date := CivilDate(2024, 3, 9);
    var t := Target("storage", d, {});
    var r1 := map["id" := Integer(1), "userId" := Integer(1), "title" := Str("Todo 1"), "completed" := Boolean(false)];
    var r2 := map["id" := Integer(2), "userId" := Integer(1), "title" := Str("Todo 2"), "completed" := Boolean(true)];
    var rs := [r1, r2];
    ScenarioPaths(d);
    assert IntToString(1) == "1" && IntToString(2) == "2";
    assert Attempt(t, r1) == Success(Written("storage/2024_03_09_1.csv", [HEADER, ["1", "1", "Todo 1", "False"]]));
    assert Attempt(t, r2) == Success(Written("storage/2024_03_09_2.csv", [HEADER, ["2", "1", "Todo 2", "True"]]));
    assert rs[..1][..0] == [] && rs[..1] == [r1];
    var once := files["storage/2024_03_09_1.csv" := [HEADER, ["1", "1", "Todo 1", "False"]]];
    assert SavedFiles(files, t, rs[..1]) == once;
    assert SavedFiles(files, t, rs) == once["storage/2024_03_09_2.csv" := [HEADER, ["2", "1", "Todo 2", "True"]]];
  }

  lemma ScenarioPaths(d: Date)
    requires d == CivilDate(2024, 3, 9)
    ensures FilePath("storage", d, Integer(1)) == "storage/2024_03_09_1.csv"
    ensures FilePath("storage", d, Integer(2)) == "storage/2024_03_09_2.csv"
  {
    ScenarioDate(d);
    assert IntToString(1) == "1" && IntToString(2) == "2";
    assert FileName(d, Integer(1)) == "2024_03_09_1.csv";
    assert FileName(d, Integer(2)) == "2024_03_09_2.csv";
  }

  lemma ScenarioDate(d: Date)
    requires d == CivilDate(2024, 3, 9)
    ensures Format(d) == "2024_03_09"
  {
    assert FixedDigits(2024, 4) == "2024";
    assert FixedDigits(3, 2) == "03" && FixedDigits(9, 2) == "09";
  }

  /** An empty record fails on its first key, so the run writes nothing and reports no success. */
  lemma EmptyRecordScenario(files: Files, existed: bool, url: string, t: Target)
    ensures RunFiles(files, t, Some([map[]])) == files
    ensures RunEvents(existed, url, t, Some([map[]])) ==
              [Started] + (if existed then [] else [MadeDirs(t.folder)]) + [Requested(url), RecordFailed(MissingKey("id"))]
  {
    var rs: seq<Record> := [map[]];
    assert rs[..0] == [];
    assert Attempt(t, map[]) == Failure(MissingKey("id"));
    assert Failures(t, rs) == [MissingKey("id")];
    assert !AllSaved(t, rs);
    assert Report([MissingKey("id")]) == [RecordFailed(MissingKey("id"))];
  }
}
