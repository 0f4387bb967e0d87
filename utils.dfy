/**
 * The shared client helpers (client/src/lib/utils.ts): the badge style of a status, and the
 * text `exportToCSV` builds from a list of records before handing it to the browser as a
 * download.
 */
module Utils {
  import opened Wrappers
  import opened Text
  import opened Items

  const GreenStatus: string := "bg-green-100 text-green-800"
  const AmberStatus: string := "bg-amber-100 text-amber-800"
  const RedStatus: string := "bg-red-100 text-red-800"
  const GrayStatus: string := "bg-gray-100 text-gray-800"

  /** `getStatusColor`. */
  function StatusColor(status: string): string {
    if status == Available then GreenStatus
    else if status == InTransit then AmberStatus
    else if status == UnderMaintenance then RedStatus
    else GrayStatus
  }

  /**
   * Available is green, in transit amber, under maintenance red, and exactly the other statuses
   * (reserved, sold, anything else) are gray.
   */
  lemma StatusColorCases(status: string)
    ensures StatusColor(Available) == GreenStatus
    ensures StatusColor(InTransit) == AmberStatus
    ensures StatusColor(UnderMaintenance) == RedStatus
    ensures StatusColor(status) == GrayStatus <==>
      status != Available && status != InTransit && status != UnderMaintenance
  {
  }

  /**
   * A field value of an exported record. `Structured` stands for an array, object or date,
   * which are truthy and which `JSON.stringify` writes as the given text on one line.
   */
  datatype Cell = Str(s: string) | Int(n: int) | Bool(b: bool) | Null | Undefined | Structured(json: string)

  /** JavaScript truthiness of a field value. */
  predicate Truthy(c: Cell) {
    match c
    case Str(s) => s != ""
    case Int(n) => n != 0
    case Bool(b) => b
    case Null => false
    case Undefined => false
    case Structured(_) => true
  }

  /** A record: its keys in `Object.keys` order and its values. */
  datatype Row = Row(keys: seq<string>, values: map<string, Cell>)

  /** `row[header]`: a missing key reads as `undefined`. */
  function Lookup(row: Row, header: string): Cell {
    if header in row.values then row.values[header] else Undefined
  }

  /** `JSON.stringify(value || '')`. */
  function Field(c: Cell): (r: string)
    ensures !Truthy(c) ==> r == "\"\""
  {
    if !Truthy(c) then JsonQuote("")
    else match c
      case Str(s) => JsonQuote(s)
      case Int(n) => IntToString(n)
      case Bool(_) => "true"
      case Structured(json) => json
      case Null => JsonQuote("")
      case Undefined => JsonQuote("")
  }

  /** `headers.map(header => Field(row[header]))`. */
  function Fields(row: Row, headers: seq<string>): (r: seq<string>)
    ensures |r| == |headers|
    ensures forall i :: 0 <= i < |headers| ==> r[i] == Field(Lookup(row, headers[i]))
    decreases |headers|
  {
    if headers == [] then []
    else Fields(row, headers[..|headers| - 1]) + [Field(Lookup(row, headers[|headers| - 1]))]
  }

  /** The data lines, one per record, each its fields joined by commas. */
  function DataLines(data: seq<Row>, headers: seq<string>): (r: seq<string>)
    ensures |r| == |data|
    ensures forall i :: 0 <= i < |data| ==> r[i] == Join(Fields(data[i], headers), ",")
    decreases |data|
  {
    if data == [] then []
    else DataLines(data[..|data| - 1], headers) + [Join(Fields(data[|data| - 1], headers), ",")]
  }

  /** The lines of the file: the keys of the first record, then one line per record. */
  function CsvLines(data: seq<Row>): seq<string>
    requires data != []
  {
    [Join(data[0].keys, ",")] + DataLines(data, data[0].keys)
  }

  /** `exportToCSV`'s text; `None` for an empty list, for which nothing is downloaded. */
  function ExportCsv(data: seq<Row>): Option<string> {
    if data == [] then None else Some(Join(CsvLines(data), "\n"))
  }

  /**
   * An empty list exports nothing. Otherwise the first line is the first record's keys joined
   * by commas, and it is followed by exactly one line per record, in order, holding one field
   * per header of the first record (keys other records lack export as `""`, keys they add are
   * dropped).
   */
  lemma ExportShape(data: seq<Row>)
    ensures data == [] <==> ExportCsv(data).None?
    ensures data != [] ==>
      var lines := CsvLines(data);
      var headers := data[0].keys;
      ExportCsv(data) == Some(Join(lines, "\n")) &&
      |lines| == |data| + 1 && lines[0] == Join(headers, ",") &&
      forall i :: 0 <= i < |data| ==>
        lines[i + 1] == Join(Fields(data[i], headers), ",") &&
        |Fields(data[i], headers)| == |headers| &&
        forall j :: 0 <= j < |headers| && headers[j] !in data[i].values ==>
          Fields(data[i], headers)[j] == "\"\""
  {
    if data != [] {
      var headers := data[0].keys;
      CsvLinesShape(data);
      forall i | 0 <= i < |data|
        ensures forall j :: 0 <= j < |headers| && headers[j] !in data[i].values ==>
          Fields(data[i], headers)[j] == "\"\""
      {
        MissingKeysEmpty(data[i], headers);
      }
    }
  }

  lemma CsvLinesShape(data: seq<Row>)
    requires data != []
    ensures var lines := CsvLines(data);
      |lines| == |data| + 1 && lines[0] == Join(data[0].keys, ",") &&
      forall i :: 0 <= i < |data| ==> lines[i + 1] == Join(Fields(data[i], data[0].keys), ",")
  {
    var lines := CsvLines(data);
    var body := DataLines(data, data[0].keys);
    assert lines == [Join(data[0].keys, ",")] + body;
    forall i | 0 <= i < |data|
      ensures lines[i + 1] == Join(Fields(data[i], data[0].keys), ",")
    {
      assert lines[i + 1] == body[i];
    }
  }

  /** A key the record lacks is exported as the quoted empty string. */
  lemma MissingKeysEmpty(row: Row, headers: seq<string>)
    ensures forall j :: 0 <= j < |headers| && headers[j] !in row.values ==> Fields(row, headers)[j] == "\"\""
  {
  }

  /** A field never holds a raw line feed, provided a structured value's text does not. */
  lemma FieldNoNewline(c: Cell)
    requires c.Structured? ==> '\n' !in c.json
    ensures '\n' !in Field(c)
  {
    JsonEscapeNoNewline("");
    if c.Str? {
      JsonEscapeNoNewline(c.s);
    }
    if c.Int? {
      var digits := NatToString(if c.n < 0 then -c.n else c.n);
      assert forall i :: 0 <= i < |digits| ==> IsDigit(digits[i]);
      assert '\n' !in digits;
    }
  }

  /** A record's line holds no raw line feed when its structured values' texts hold none. */
  lemma RowLineNoNewline(row: Row, headers: seq<string>)
    requires forall k :: k in row.values && row.values[k].Structured? ==> '\n' !in row.values[k].json
    ensures '\n' !in Join(Fields(row, headers), ",")
  {
    var fs := Fields(row, headers);
    forall j | 0 <= j < |fs| ensures '\n' !in fs[j] {
      FieldNoNewline(Lookup(row, headers[j]));
    }
    JoinAvoids(fs, ",", '\n');
  }

  /** No line of the export holds a raw line feed (keys and structured texts without one). */
  lemma LinesNoNewline(data: seq<Row>)
    requires data != []
    requires forall i :: 0 <= i < |data[0].keys| ==> '\n' !in data[0].keys[i]
    requires forall r, k :: r in data && k in r.values && r.values[k].Structured? ==>
      '\n' !in r.values[k].json
    ensures forall i :: 0 <= i < |CsvLines(data)| ==> '\n' !in CsvLines(data)[i]
  {
    var headers := data[0].keys;
    var body := DataLines(data, headers);
    JoinAvoids(headers, ",", '\n');
    forall i | 0 <= i < |body| ensures '\n' !in body[i] {
      RowLineNoNewline(data[i], headers);
    }
    assert CsvLines(data) == [Join(headers, ",")] + body;
  }

  /**
   * Splitting the exported text at line feeds gives back the header line and the record lines,
   * one each: a line feed inside a value is always escaped.
   */
  lemma ExportSplitsIntoLines(data: seq<Row>)
    requires data != []
    requires forall i :: 0 <= i < |data[0].keys| ==> '\n' !in data[0].keys[i]
    requires forall r, k :: r in data && k in r.values && r.values[k].Structured? ==>
      '\n' !in r.values[k].json
    ensures Split(ExportCsv(data).value, '\n') == CsvLines(data)
    ensures |Split(ExportCsv(data).value, '\n')| == |data| + 1
  {
    LinesNoNewline(data);
    SplitJoin(CsvLines(data), '\n');
  }
}
