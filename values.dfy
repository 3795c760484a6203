/**
  The JSON values a fetched record can hold, and the two ways the service
  turns a value into text: Python's str() (used for the file name) and the
  csv writer's field rendering (used for the file contents).
 */
module Values {
  import opened Text

  /** A decoded JSON value; Other stands for any further value by its str() text. */
  datatype Value =
    | Integer(n: int)
    | Str(s: string)
    | Boolean(b: bool)
    | Null
    | Other(repr: string)

  /** One fetched todo: a string-keyed mapping with no schema imposed. */
  type Record = map<string, Value>

  /** One CSV row, as the sequence of its field texts. */
  type Row = seq<string>

  /** str(v): what an f-string interpolates. */
  function Display(v: Value): string {
    match v
    case Integer(n) => IntToString(n)
    case Str(s) => s
    case Boolean(b) => if b then "True" else "False"
    case Null => "None"
    case Other(repr) => repr
  }

  /** The text csv.writer writes for a field: None becomes the empty field, the rest str(). */
  function CsvField(v: Value): string {
    if v.Null? then "" else Display(v)
  }

  /** An integer's text reads back as that integer. */
  lemma DisplayIntegerReadsBack(n: int)
    ensures ParseInt(Display(Integer(n))) == n
    ensures ParseInt(CsvField(Integer(n))) == n
  {
    ParseIntToString(n);
  }

  /** Distinct integer ids render distinctly. */
  lemma DisplayIntegerInjective(a: int, b: int)
    ensures Display(Integer(a)) == Display(Integer(b)) <==> a == b
  {
    IntToStringInjective(a, b);
  }
}
