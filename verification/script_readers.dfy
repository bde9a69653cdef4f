/**
 * The row readers of the later revision (script.js): blank lines and rows
 * whose arrival or departure is an Invalid Date are dropped, and missing
 * spreadsheet cells get defaults.
 */
module ScriptReaders {
  import opened Wrappers
  import opened JsValues
  import opened Seqs
  import opened Bookings

  // ---------------------------------------------------------------- delimited text

  /** Both date columns of a comma-split line parse. */
  predicate CsvDatesParse(line: string, rt: JsRuntime)
  {
    var fields := Split(line, ',');
    rt.newDate(FieldValue(fields, 3)).Some? && rt.newDate(FieldValue(fields, 4)).Some?
  }

  /**
   * One data line: `null` when blank, `null` when a date is invalid, else
   * the record built from columns 3, 4, 6, 7, 8, 11, 17 and 18.
   */
  function CsvRecord(line: string, rt: JsRuntime): (r: Option<Reservation>)
    ensures r.Some? <==> !IsBlank(line) && CsvDatesParse(line, rt)
    ensures r.Some? ==> HasDates(r.value)
  {
    if IsBlank(line) then None else FieldsRecord(Split(line, ','), rt)
  }

  /**
   * The destructuring of `line.split(',')`: `null` when a date is invalid,
   * else the record.
   */
  function FieldsRecord(fields: seq<string>, rt: JsRuntime): (r: Option<Reservation>)
    ensures r.Some? <==> rt.newDate(FieldValue(fields, 3)).Some? && rt.newDate(FieldValue(fields, 4)).Some?
    ensures r.Some? ==> HasDates(r.value)
  {
    var arrival := rt.newDate(FieldValue(fields, 3));
    var departure := rt.newDate(FieldValue(fields, 4));
    if arrival.None? || departure.None? then None
    else
      Some(Reservation(
        arrival, departure,
        FieldValue(fields, 6),
        ParseIntField(Field(fields, 7)),
        ParseIntField(Field(fields, 8)),
        rt.parseFloat(FieldValue(fields, 11)),
        FieldValue(fields, 17),
        FieldValue(fields, 18)))
  }

  /**
   * A line with fewer than five fields has no departure column, and
   * `new Date(undefined)` is an Invalid Date: the line is dropped.
   */
  lemma CsvShortLineDropped(line: string, rt: JsRuntime)
    requires ValidRuntime(rt) && |Split(line, ',')| < 5
    ensures CsvRecord(line, rt) == None
  {
    assert FieldValue(Split(line, ','), 4) == Undefined;
  }

  /** `lines.map(...)`: one optional record per data line. */
  function CsvMapped(lines: seq<string>, rt: JsRuntime): (r: seq<Option<Reservation>>)
    ensures |r| == |lines|
    ensures forall i :: 0 <= i < |lines| ==> r[i] == CsvRecord(lines[i], rt)
  {
    seq(|lines|, i requires 0 <= i < |lines| => CsvRecord(lines[i], rt))
  }

  /** `readCSV`'s result for a file's text. */
  function ReadCsv(text: string, rt: JsRuntime): (r: seq<Reservation>)
    ensures forall k :: 0 <= k < |r| ==> HasDates(r[k])
  {
    var mapped := CsvMapped(DataLines(text), rt);
    DropNullsExact(mapped);
    DropNulls(mapped)
  }

  /**
   * The header is dropped, and each data line yields exactly one record,
   * in input order, precisely when it is not blank and both its dates
   * parse: the k-th record comes from the k-th such line.
   */
  lemma CsvKeepsValidLines(text: string, rt: JsRuntime)
    ensures var lines := DataLines(text);
      var out := ReadCsv(text, rt);
      var ix := PresentIndices(CsvMapped(lines, rt));
      && |ix| == |out|
      && StrictlyIncreasing(ix)
      && (forall k :: 0 <= k < |ix| ==> ix[k] < |lines| && CsvRecord(lines[ix[k]], rt) == Some(out[k]))
      && (forall i :: 0 <= i < |lines| ==> (i in ix <==> !IsBlank(lines[i]) && CsvDatesParse(lines[i], rt)))
  {
    var lines := DataLines(text);
    var mapped := CsvMapped(lines, rt);
    DropNullsExact(mapped);
    var ix := PresentIndices(mapped);
    forall i | 0 <= i < |lines|
      ensures i in ix <==> !IsBlank(lines[i]) && CsvDatesParse(lines[i], rt)
    {
      assert mapped[i] == CsvRecord(lines[i], rt);
    }
    forall k | 0 <= k < |ix|
      ensures ix[k] < |lines| && CsvRecord(lines[ix[k]], rt) == Some(ReadCsv(text, rt)[k])
    {
      assert mapped[ix[k]] == CsvRecord(lines[ix[k]], rt);
    }
  }

  /**
   * A data line made of at least 19 comma-free fields is mapped column by
   * column: arrival 3, departure 4, guest 6, rooms 7, persons 8, amount 11,
   * hotel 17 and property 18; it is dropped exactly when a date is invalid.
   */
  lemma CsvColumns(fields: seq<string>, rt: JsRuntime)
    requires |fields| >= 19
    requires forall k :: 0 <= k < |fields| ==> ',' !in fields[k]
    ensures var arrival := rt.newDate(Str(fields[3]));
      var departure := rt.newDate(Str(fields[4]));
      CsvRecord(Join(fields, ','), rt) ==
        if arrival.None? || departure.None? then None
        else Some(Reservation(
          arrival, departure, Str(fields[6]),
          IntValue(ParseInt(fields[7])), IntValue(ParseInt(fields[8])),
          rt.parseFloat(Str(fields[11])), Str(fields[17]), Str(fields[18])))
  {
    var line := Join(fields, ',');
    SplitJoin(fields, ',');
    assert line == fields[0] + [','] + Join(fields[1..], ',');
    assert line[|fields[0]|] == ',';
    assert !IsWhite(',');
    assert CsvRecord(line, rt) == FieldsRecord(fields, rt);
    assert Field(fields, 7) == Some(fields[7]) && Field(fields, 8) == Some(fields[8]);
  }

  // ---------------------------------------------------------------- spreadsheet

  /** Both date cells of a spreadsheet row parse. */
  predicate ExcelDatesParse(row: seq<Value>, rt: JsRuntime)
  {
    rt.newDate(Cell(row, 3)).Some? && rt.newDate(Cell(row, 4)).Some?
  }

  /**
   * One spreadsheet row: `null` when a date is invalid, else the record
   * with `row[i] || default` for guest (6), rooms (7), persons (8),
   * amount (11), hotel (17) and property (18).
   */
  function ExcelRecord(row: seq<Value>, rt: JsRuntime): (r: Option<Reservation>)
    ensures r.Some? <==> ExcelDatesParse(row, rt)
    ensures r.Some? ==> HasDates(r.value)
  {
    var arrival := rt.newDate(Cell(row, 3));
    var departure := rt.newDate(Cell(row, 4));
    var guestName := Or(Cell(row, 6), Str(""));
    var rooms := Or(Cell(row, 7), Num(0.0));
    var persons := Or(Cell(row, 8), Num(0.0));
    var originalAmount := Or(Cell(row, 11), Num(0.0));
    var hotelId := Or(Cell(row, 17), Str(""));
    var propertyName := Or(Cell(row, 18), Str(""));
    if arrival.None? || departure.None? then None
    else Some(Reservation(arrival, departure, guestName, rooms, persons, originalAmount, hotelId, propertyName))
  }

  /** `jsonData.slice(1).map(...)`. */
  function ExcelMapped(rows: seq<seq<Value>>, rt: JsRuntime): (r: seq<Option<Reservation>>)
    ensures |r| == |rows|
    ensures forall i :: 0 <= i < |rows| ==> r[i] == ExcelRecord(rows[i], rt)
  {
    seq(|rows|, i requires 0 <= i < |rows| => ExcelRecord(rows[i], rt))
  }

  /** `readExcel`'s result for the first sheet's rows. */
  function ReadExcel(sheet: seq<seq<Value>>, rt: JsRuntime): (r: seq<Reservation>)
    ensures forall k :: 0 <= k < |r| ==> HasDates(r[k])
  {
    var mapped := ExcelMapped(Tail(sheet), rt);
    DropNullsExact(mapped);
    DropNulls(mapped)
  }

  /** The text default: the cell when truthy, else `""`. */
  predicate TextOrDefault(field: Value, cell: Value)
  {
    if Truthy(cell) then field == cell else field == Str("")
  }

  /** The numeric default: the cell when truthy, else `0`. */
  predicate NumberOrDefault(field: Value, cell: Value)
  {
    if Truthy(cell) then field == cell else field == Num(0.0)
  }

  /**
   * Row 0 is dropped; every later row yields a record exactly when both
   * dates parse, in row order; each kept record holds the row's dates and
   * its cells or their defaults, so a missing guest, hotel or property
   * becomes `""` and missing rooms, persons or amount become `0`.
   */
  lemma ExcelKeepsValidRows(sheet: seq<seq<Value>>, rt: JsRuntime)
    ensures var rows := Tail(sheet);
      var out := ReadExcel(sheet, rt);
      var ix := PresentIndices(ExcelMapped(rows, rt));
      && |ix| == |out|
      && StrictlyIncreasing(ix)
      && (forall i :: 0 <= i < |rows| ==> (i in ix <==> ExcelDatesParse(sheet[i + 1], rt)))
      && (forall k :: 0 <= k < |ix| ==>
            && ix[k] < |rows|
            && var row := rows[ix[k]];
            var r := out[k];
            && r.arrival == rt.newDate(Cell(row, 3)) && r.departure == rt.newDate(Cell(row, 4))
            && TextOrDefault(r.guestName, Cell(row, 6))
            && NumberOrDefault(r.rooms, Cell(row, 7))
            && NumberOrDefault(r.persons, Cell(row, 8))
            && NumberOrDefault(r.originalAmount, Cell(row, 11))
            && TextOrDefault(r.hotelId, Cell(row, 17))
            && TextOrDefault(r.propertyName, Cell(row, 18)))
  {
    var rows := Tail(sheet);
    var mapped := ExcelMapped(rows, rt);
    DropNullsExact(mapped);
    var ix := PresentIndices(mapped);
    forall k | 0 <= k < |ix|
      ensures ExcelRecord(rows[ix[k]], rt) == Some(ReadExcel(sheet, rt)[k])
    {
      assert mapped[ix[k]] == ExcelRecord(rows[ix[k]], rt);
    }
  }
}
