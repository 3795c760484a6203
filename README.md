# ApiService, modelled in Dafny

`ApiService` fetches the todo list of `https://jsonplaceholder.typicode.com/todos/`
once. For every todo it then writes one CSV file into a storage folder. Each file is named
`<YYYY_MM_DD>_<id>.csv` after the current date and the todo's id. It holds a header row
`id,userId,title,completed` and one data row. A missing key or a file that cannot be
opened is reported, and that record is skipped. The closing success message appears
only when every record was saved.

The model has these parts:

- `wrappers.dfy`: `Option` and `Result`.
- `text.dfy`: `str()` of an integer and zero-padded digits, each with a parser that reads the text back.
- `values.dfy`: decoded JSON values.
  - `Display` renders a value as `str()` does, with `True`/`False` and `None`.
  - `CsvField` renders a value as `csv.writer` does, so `None` becomes an empty field.
- `dates.dfy`: valid calendar dates and `strftime('%Y_%m_%d')`.
- `paths.dfy`: `os.path.join`, the basename, and the directories `os.makedirs` creates.
- `todos.dfy`: what `create_csv_file` computes before touching the disk.
  - the key look-ups, in order;
  - the file name and path;
  - the two rows.
- `persistence.dfy`: the effect of one attempt, and of a batch of attempts, on a map from path to rows.
  - `Attempt` gives the outcome of one record.
  - `SavedFiles`, `AllSaved` and `Failures` follow the loop of `run`.
- `filesystem.dfy`: a `FileSystem` class.
  - It holds the existing directories and the files' rows.
  - Its methods are `makedirs` and a truncating write that may be refused.
- `api_service.dfy`:
  - `FetchResult` describes the HTTP reply.
  - The `ApiService` class has the two constructor fields, an output log of `Event`s, and
    the methods `FetchTodos`, `CreateCsvFile` and `Run`.
  - `Run` is split into `EnsureFolder`, `FetchAndSave` and the record loop `SaveAll`.
  - `SaveAll` keeps the original `success` flag and a `while` loop with its invariants.
  - The lemmas cover the whole run.

Inputs that the program reads from the environment are parameters of the model:

- The HTTP reply is an `HttpReply` argument: no response, or a status and a body that is a JSON list of records or not JSON.
- The date of `datetime.now()` is a `Date` argument.
- `os.getcwd()` is the `cwd` argument of `WithDefaultFolder`: the working directory when the module was imported, since a default argument is evaluated once, when the class is defined.
- The set of paths that `open(…, 'w')` refuses is a field of the `FileSystem`.

What the program prints, the directory it creates and the request it sends are
recorded, in order, in the service's `output` log.

On these points the model follows the code:

- The success message is printed only if every record was saved (`if success:` at line 54), not after every run.
- `raise_for_status` fails for statuses 400 to 599 only.
  - Other statuses that are not 2xx (1xx, 3xx, 600 and above) go on to `response.json()`.
- `csv.writer` writes `None` as an empty field, while the file name interpolates the text `None`.
- `os.path.exists` is true for a file as well as a directory.
  - So a plain file at the storage path means `makedirs` is not called.

## Model

| member | source | states |
|---|---|---|
| ApiServices.FetchResult | src/Services/ApiService.py:13-20 | The fetch yields a list exactly when there was a response whose status is not 4xx/5xx and whose body is JSON; the list is then the decoded body. |
| ApiServices.ApiService.constructor | src/Services/ApiService.py:9-11 | The url is the fixed endpoint and the storage folder is the one given; nothing is logged yet. |
| ApiServices.ApiService.WithDefaultFolder | src/Services/ApiService.py:9-11 | The default folder is `os.path.join(cwd, 'storage')`. |
| Paths.DefaultStorageFolder | src/Services/ApiService.py:9 | The default folder's last component is `storage`, whatever the working directory. |
| ApiServices.ApiService.FetchTodos | src/Services/ApiService.py:13-20 | One request is logged, then a fetch error only when the result is None; the result is the one FetchResult describes. |
| Todos.Extract | src/Services/ApiService.py:24-27 | Extraction succeeds iff all four keys are present, with the four values in key order. Otherwise it fails with the first missing key in the order id, userId, title, completed. |
| Todos.DataRowReadsBack | src/Services/ApiService.py:33-35 | For integer ids, a string title and a boolean flag, the data row has four fields; the first two read back as the integers, the third is the title, the fourth is `True` or `False`. |
| Todos.FileNameParts | src/Services/ApiService.py:29 | The file name is the 10-character date (which parses back to the date), `_`, the id's text, then `.csv`. |
| Todos.FileNameInjective | src/Services/ApiService.py:29 | Two file names coincide exactly when the dates and the id texts do. |
| Todos.FilePathInjective | src/Services/ApiService.py:29-30 | In one folder on one date, two records share a path exactly when their ids print the same. |
| Todos.FilePathInFolder | src/Services/ApiService.py:30 | For an id whose text has no `/`, the path starts with the folder and its basename is the file name. |
| Todos.IntegerAndStringIdsCollide | src/Services/ApiService.py:29-30 | The ids `1` and `"1"` name the same file. |
| Values.DisplayIntegerReadsBack | src/Services/ApiService.py:29 | An integer's text, in the file name and in the CSV field, parses back to the integer. |
| Values.DisplayIntegerInjective | src/Services/ApiService.py:29 | Distinct integer ids give distinct texts. |
| Text.NatToString | src/Services/ApiService.py:29 | `str(n)` of a natural number is non-empty decimal digits, beginning with 0 only for 0. |
| Text.IntToString | src/Services/ApiService.py:29 | `str(i)` is non-empty and begins with a minus sign exactly for negative numbers. |
| Text.ParseNatToString | src/Services/ApiService.py:29 | Reading the digits of `str(n)` gives back n. |
| Text.ParseIntToString | src/Services/ApiService.py:35 | Reading `str(i)` gives back i, negative numbers included. |
| Text.IntToStringInjective | src/Services/ApiService.py:29 | Two integers print the same exactly when they are equal. |
| Text.FixedDigits | src/Services/ApiService.py:29 | A zero-padded field of width w has exactly w decimal digits. |
| Text.ParseFixedDigits | src/Services/ApiService.py:29 | A number below 10^w survives zero-padding to w digits. |
| Dates.Format | src/Services/ApiService.py:29 | `%Y_%m_%d` is ten characters: digits, with `_` at positions 4 and 7. |
| Dates.FormatRoundTrip | src/Services/ApiService.py:29 | The formatted date parses back to the same year, month and day. |
| Dates.FormatInjective | src/Services/ApiService.py:29 | Two dates format alike exactly when they are equal. |
| Paths.Ancestors | src/Services/ApiService.py:45 | `makedirs(p)` creates p, and every directory it creates is a prefix of p. |
| Paths.JoinParts | src/Services/ApiService.py:30 | Joining a relative name yields the folder first and the name last. |
| Paths.JoinInjective | src/Services/ApiService.py:30 | In one folder, two relative names give the same path exactly when they are equal. |
| Paths.JoinBasename | src/Services/ApiService.py:30 | A name without `/` is the basename of the joined path. |
| Persistence.FailedAttemptChangesNothing | src/Services/ApiService.py:22-39 | A record that fails leaves every file as it was; a missing key fails as a KeyError naming that key. |
| Persistence.SuccessfulAttemptWritesOneFile | src/Services/ApiService.py:29-36 | A complete record whose path can be opened adds or replaces exactly its own path; the path holds the header and the data row, and every other file is unchanged. |
| Persistence.AttemptIdempotent | src/Services/ApiService.py:32 | Writing the same record twice leaves what writing it once leaves (truncate mode). |
| Persistence.WrittenPathsSnoc | src/Services/ApiService.py:50-51 | One more record adds its path to the written paths exactly when it succeeds. |
| Persistence.SavedFilesKeys | src/Services/ApiService.py:50-51 | After the loop, the files are the previous ones plus the paths some record wrote. |
| Persistence.SavedFilesElsewhere | src/Services/ApiService.py:50-51 | A path no record wrote keeps its rows, or stays absent. |
| Persistence.LastWriteWins | src/Services/ApiService.py:50-51 | A record's rows survive the loop unless a later successful record writes the same path. |
| Persistence.SavedFilesForget | src/Services/ApiService.py:50-51 | On each path the loop writes, the result does not depend on what was there before. |
| Persistence.SaveTwice | src/Services/ApiService.py:50-51 | Running the same loop again yields the same files. |
| Persistence.SavedFilesSnoc | src/Services/ApiService.py:50-51 | Appending a record to the batch applies its attempt last. |
| Persistence.FailuresAreSkipped | src/Services/ApiService.py:50-52 | The loop ends as if only the records that succeed were there: a failure does not stop or disturb the loop. |
| Persistence.AllSavedIff | src/Services/ApiService.py:49-52 | The success flag ends true exactly when every call returned True. |
| Persistence.NoFailuresIff | src/Services/ApiService.py:49-52 | No failure is reported exactly when the flag ends true. |
| Persistence.OneFilePerRecord | src/Services/ApiService.py:29-52 | N complete records with pairwise distinct id texts, none of them refused, give exactly N files in an empty folder, each holding its own record's rows. |
| Persistence.WrittenPathsCount | src/Services/ApiService.py:50-51 | N successful records with distinct paths write N distinct paths. |
| FileSystems.FileSystem.MakeDirs | src/Services/ApiService.py:45 | `makedirs` adds the path and its parent directories, leaves the files alone, and afterwards the path exists. |
| FileSystems.FileSystem.WriteRows | src/Services/ApiService.py:32-35 | The open succeeds exactly when the path is not refused; on success the path holds exactly the given rows, otherwise nothing changes. |
| Persistence.Attempt | src/Services/ApiService.py:22-39 | The outcome of one call: MissingKey of the first absent key, CannotOpen of the dated path when the open is refused, otherwise the path and the two rows written. |
| Persistence.Apply | src/Services/ApiService.py:32 | A write replaces the path's rows (truncate mode); a failure changes no file. |
| Persistence.SavedFiles | src/Services/ApiService.py:49-52 | The file map after attempting every record in order. |
| Persistence.AllSaved | src/Services/ApiService.py:49-52 | The `success` flag: true until some call returns False. |
| Persistence.Failures | src/Services/ApiService.py:49-52 | The failures of the batch, in the order the records were attempted. |
| Todos.FileName | src/Services/ApiService.py:29 | The date as `%Y_%m_%d`, `_`, `str()` of the id, then `.csv`. |
| Todos.FilePath | src/Services/ApiService.py:30 | The file name joined to the storage folder. |
| Todos.DataRow | src/Services/ApiService.py:35 | The four values in header order, as `csv.writer` renders them. |
| Todos.Contents | src/Services/ApiService.py:34-35 | The header row followed by the data row. |
| Values.Display | src/Services/ApiService.py:29 | `str()` of a JSON value: integers in decimal, `True`/`False`, `None`, strings as they are. |
| Values.CsvField | src/Services/ApiService.py:35 | The text `csv.writer` writes for a value: empty for `None`, `str()` otherwise. |
| Paths.Join | src/Services/ApiService.py:30 | POSIX `os.path.join`: an absolute second part wins, otherwise a separator is added unless the first part is empty or already ends with one. |
| FileSystems.FileSystem.Exists | src/Services/ApiService.py:44 | `os.path.exists`: a directory or a file is at the path. |
| ApiServices.IsHttpError | src/Services/ApiService.py:16 | The statuses for which `raise_for_status` raises: 400 to 599. |
| ApiServices.Outcome | src/Services/ApiService.py:47-55 | What a run logs after the request: the fetch error for None, nothing for an empty list, otherwise one diagnostic per failure and then the success message when nothing failed. |
| ApiServices.RunEvents | src/Services/ApiService.py:41-55 | The start message, the folder creation when the folder was missing, the request, then the outcome. |
| ApiServices.RunFiles | src/Services/ApiService.py:47-52 | The files after a run: the batch's files for a non-empty list, the old files otherwise. |
| ApiServices.ApiService.CreateCsvFile | src/Services/ApiService.py:22-39 | Returns True exactly when the record's attempt succeeds. The files change exactly as that attempt says. A failure is logged with its cause. Directories are untouched. |
| ApiServices.ApiService.SaveAll | src/Services/ApiService.py:49-52 | Every record is attempted in order: the flag, the files and the logged failures are those of the whole batch. |
| ApiServices.ApiService.EnsureFolder | src/Services/ApiService.py:44-45 | If nothing exists at the folder it is created together with its parents; afterwards it exists and no file changed. |
| ApiServices.ApiService.FetchAndSave | src/Services/ApiService.py:47-55 | After the request, a failed or empty fetch writes nothing. Otherwise every record is saved in order, and the success message follows exactly when all were saved. |
| ApiServices.ApiService.Run | src/Services/ApiService.py:41-55 | The folder exists afterwards. Directories grow only when the folder was missing. The files and the log are those RunFiles and RunEvents give for the reply. |
| ApiServices.ReportIsDiagnostics | src/Services/ApiService.py:38 | The failure report has one `Error processing todo` line per failure, in order, and nothing else. |
| ApiServices.SuccessReportedIff | src/Services/ApiService.py:48-55 | The success message appears once if the fetch gave a non-empty list and every record was saved, and never otherwise. |
| ApiServices.NothingFetchedNothingWritten | src/Services/ApiService.py:47-48 | A None or empty fetch writes nothing and prints no success message. |
| ApiServices.FolderBeforeRequest | src/Services/ApiService.py:42-47 | The start message comes first. The folder is created, if missing, before the request is sent; if it existed, it is never created. |
| ApiServices.RunTwice | src/Services/ApiService.py:41-55 | Two runs with the same reply on the same date leave the files of one run. |
| ApiServices.TwoTodosScenario | tests/test_apiservice.py:19-56 | The repository's two todos give `storage/2024_03_09_1.csv` and `storage/2024_03_09_2.csv` with the rows the test reads back. |
| ApiServices.EmptyRecordScenario | src/Services/ApiService.py:41-55 | An empty record fails on `id`: nothing is written, one diagnostic is logged, and no success message appears. |

## Left out

- The HTTP exchange is left out: `requests.get` becomes the `HttpReply` argument.
  - Headers, redirects, timeouts and the text of exception messages are not modelled.
- A JSON body that is not a list of objects is left out; the model's body is either not JSON or a list of records.
  - A truthy body of another shape (a non-zero number, a non-empty string, a list of lists) makes `create_csv_file` or the loop raise an uncaught TypeError.
  - A falsy one (`0`, `false`, `""`, `{}`) fails `if todos:` at line 48 and ends the run silently, like an empty list.
  - `null` makes `fetch_todos` return None without printing the fetch error; the model pairs None with `FetchFailed`, so it cannot express this case.
- Older versions of `requests`, where a decode error is a plain ValueError and escapes `fetch_todos`, are left out; the model follows current versions.
- `datetime.now()` becomes the `Date` argument, read once per run.
  - A run that crosses midnight, and so uses two dates, is not modelled.
- `%Y` is modelled as four zero-padded digits; some C libraries print years below 1000 without padding.
- `os.makedirs` failing (permissions, a race with another process) is left out; it raises out of `run`.
- Why `open` fails (a missing directory, permissions, disk full) is left out.
  - The refused paths are one fixed set, and each refusal is an OSError that the handler at line 37 catches.
  - Partial writes are not modelled.
- CSV quoting and line endings are left out; a row is the list of its field texts.
- Printed messages are `Event`s in the output log; their exact texts are not modelled.
- Ids of other types (floats, lists) are represented by their `str()` text in `Other`.
- Path normalisation (`..`, repeated separators) is left out; paths are compared as strings.
- The `__main__` entry point and the test harness's file clean-up are left out.
- ApiServices.ApiService.CreateCsvFile: the contract states the outcome through `Attempt`; the key order, the dated path and the two rows are stated about `Attempt` by the lemmas of `Persistence`, not by the method itself.
- ApiServices.ApiService.CreateCsvFile: the uncaught ValueError paths are left out. These are a path holding a NUL character, which makes `open` at line 32 raise, and a field the locale cannot encode, which makes `writerow` at line 35 raise after the file was created or truncated. Both escape the handler at line 37 and abort `run`. The model assumes a UTF-8 locale and no NUL in ids: it writes such a record and the loop goes on.
