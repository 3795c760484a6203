/**
  What create_csv_file computes from one record before it touches the disk:
  the four looked-up fields, the file name and path, and the two rows.
 */
module Todos {
  import opened Wrappers
  import opened Text
  import opened Values
  import opened Dates
  import opened Paths

  /** The keys looked up, in the order they are looked up. */
  const KEYS: seq<string> := ["id", "userId", "title", "completed"]

  /** The first row of every file. */
  const HEADER: Row := ["id", "userId", "title", "completed"]

  /** A record whose four required fields were all found. */
  datatype Todo = Todo(id: Value, userId: Value, title: Value, completed: Value)

  /**
    The four subscripts todo['id'], todo['userId'], todo['title'],
    todo['completed']: the first one that raises KeyError names the result.
   */
  function Extract(r: Record): (res: Result<Todo, string>)
    ensures res.Success? <==> forall i :: 0 <= i < |KEYS| ==> KEYS[i] in r
    ensures res.Success? ==> res.value == Todo(r[KEYS[0]], r[KEYS[1]], r[KEYS[2]], r[KEYS[3]])
    ensures res.Failure? ==>
              exists i :: 0 <= i < |KEYS| && res.error == KEYS[i] && KEYS[i] !in r &&
                          forall j :: 0 <= j < i ==> KEYS[j] in r
  {
    assert KEYS[0] == "id" && KEYS[1] == "userId" && KEYS[2] == "title" && KEYS[3] == "completed";
    if "id" !in r then Failure("id")
    else if "userId" !in r then Failure("userId")
    else if "title" !in r then Failure("title")
    else if "completed" !in r then Failure("completed")
    else Success(Todo(r["id"], r["userId"], r["title"], r["completed"]))
  }

  /** The second row: the four values in header order, as csv.writer renders them. */
  function DataRow(t: Todo): Row {
    [CsvField(t.id), CsvField(t.userId), CsvField(t.title), CsvField(t.completed)]
  }

  /** Everything the file holds: the header, then the data row. */
  function Contents(t: Todo): seq<Row> {
    [HEADER, DataRow(t)]
  }

  /** f"{date:%Y_%m_%d}_{id}.csv" */
  function FileName(d: Date, id: Value): string {
    Format(d) + "_" + Display(id) + ".csv"
  }

  /** os.path.join(storage_folder, file_name) */
  function FilePath(folder: string, d: Date, id: Value): string {
    Join(folder, FileName(d, id))
  }

  /** The data row reads back as the record's values (the checks of the repository's test). */
  lemma DataRowReadsBack(t: Todo)
    requires t.id.Integer? && t.userId.Integer? && t.title.Str? && t.completed.Boolean?
    ensures var row := DataRow(t);
      && |row| == |HEADER|
      && ParseInt(row[0]) == t.id.n
      && ParseInt(row[1]) == t.userId.n
      && row[2] == t.title.s
      && row[3] == (if t.completed.b then "True" else "False")
  {
    DisplayIntegerReadsBack(t.id.n);
    DisplayIntegerReadsBack(t.userId.n);
  }

  /** A file name splits back into the date and the id text it was built from. */
  lemma FileNameParts(d: Date, id: Value)
    ensures var name := FileName(d, id);
      && |name| == 15 + |Display(id)|
      && Parse(name[..10]) == d
      && name[10] == '_'
      && name[11..|name| - 4] == Display(id)
      && name[|name| - 4..] == ".csv"
  {
    var name := FileName(d, id);
    assert name[..10] == Format(d);
    assert name[11..|name| - 4] == Display(id);
    FormatRoundTrip(d);
  }

  /** Two records share a file name exactly when the date and the id's text agree. */
  lemma FileNameInjective(d1: Date, id1: Value, d2: Date, id2: Value)
    ensures FileName(d1, id1) == FileName(d2, id2) <==> d1 == d2 && Display(id1) == Display(id2)
  {
    if FileName(d1, id1) == FileName(d2, id2) {
      FileNameParts(d1, id1);
      FileNameParts(d2, id2);
    }
  }

  /** In one folder on one date, the path of a file identifies the text of its id. */
  lemma FilePathInjective(folder: string, d: Date, id1: Value, id2: Value)
    ensures FilePath(folder, d, id1) == FilePath(folder, d, id2) <==> Display(id1) == Display(id2)
  {
    var n1, n2 := FileName(d, id1), FileName(d, id2);
    assert IsDigit(n1[0]) && IsDigit(n2[0]);
    JoinInjective(folder, n1, n2);
    FileNameInjective(d, id1, d, id2);
  }

  /** The file lands directly inside the folder, under its own name. */
  lemma FilePathInFolder(folder: string, d: Date, id: Value)
    requires SEP !in Display(id)
    ensures var p := FilePath(folder, d, id);
      && Basename(p) == FileName(d, id)
      && p[..|folder|] == folder
  {
    var name := FileName(d, id);
    assert name[..10] == Format(d);
    assert IsDigit(name[0]);
    forall i | 0 <= i < |name| ensures name[i] != SEP {
      if i < 10 {
        assert name[i] == Format(d)[i];
      } else if 11 <= i < |name| - 4 {
        assert name[i] == Display(id)[i - 11];
      }
    }
    JoinBasename(folder, name);
    JoinParts(folder, name);
  }

  /** Ids that differ as Python objects can still collide: 1 and "1" name the same file. */
  lemma IntegerAndStringIdsCollide(folder: string, d: Date)
    ensures FilePath(folder, d, Integer(1)) == FilePath(folder, d, Str("1"))
  {
    assert IntToString(1) == "1";
  }
}
