/**
 * The row readers of the earlier revision (front-end/script.js): every
 * data line and every spreadsheet row after the header becomes a record,
 * with no filtering and no defaults, and the text columns sit at other
 * positions than in the later revision.
 */
module FrontEndReaders {
  import opened Wrappers
  import opened JsValues
  import opened Bookings
  import opened Unification

  // ---------------------------------------------------------------- delimited text

  /**
   * One data line: the record built from columns 3 (arrival), 4
   * (departure), 5 (guest), 6 (rooms), 7 (persons), 8 (amount), 11 (hotel)
   * and 12 (property), whatever they hold.
   */
  function CsvRecord(line: string, rt: JsRuntime): Reservation
  {
    FieldsRecord(Split(line, ','), rt)
  }

  /** The destructuring of `line.split(',')` into a record. */
  function FieldsRecord(fields: seq<string>, rt: JsRuntime): Reservation
  {
    Reservation(
      rt.newDate(FieldValue(fields, 3)),
      rt.newDate(FieldValue(fields, 4)),
      FieldValue(fields, 5),
      ParseIntField(Field(fields, 6)),
      ParseIntField(Field(fields, 7)),
      rt.parseFloat(FieldValue(fields, 8)),
      FieldValue(fields, 11),
      FieldValue(fields, 12))
  }

  /** `readCSV`'s result: one record per line after the header, in order. */
  function ReadCsv(text: string, rt: JsRuntime): (r: seq<Reservation>)
    ensures |r| == |Split(text, '\n')| - 1
    ensures forall i :: 0 <= i < |r| ==> r[i] == CsvRecord(Split(text, '\n')[i + 1], rt)
  {
    var lines := DataLines(text);
    seq(|lines|, i requires 0 <= i < |lines| => CsvRecord(lines[i], rt))
  }

  /**
   * A file of a header and n newline-free lines gives exactly n records,
   * the i-th from the i-th line: blank lines are kept too.
   */
  lemma CsvKeepsEveryLine(header: string, lines: seq<string>, rt: JsRuntime)
    requires '\n' !in header
    requires forall i :: 0 <= i < |lines| ==> '\n' !in lines[i]
    ensures var out := ReadCsv(Join([header] + lines, '\n'), rt);
      |out| == |lines| && forall i :: 0 <= i < |lines| ==> out[i] == CsvRecord(lines[i], rt)
  {
    DataLinesOfFile(header, lines);
  }

  /**
   * A line of at least 13 comma-free fields is mapped column by column:
   * arrival 3, departure 4, guest 5, rooms 6, persons 7, amount 8, hotel 11
   * and property 12.
   */
  lemma CsvColumns(fields: seq<string>, rt: JsRuntime)
    requires |fields| >= 13
    requires forall k :: 0 <= k < |fields| ==> ',' !in fields[k]
    ensures CsvRecord(Join(fields, ','), rt) == Reservation(
      rt.newDate(Str(fields[3])), rt.newDate(Str(fields[4])), Str(fields[5]),
      IntValue(ParseInt(fields[6])), IntValue(ParseInt(fields[7])),
      rt.parseFloat(Str(fields[8])), Str(fields[11]), Str(fields[12]))
  {
    SplitJoin(fields, ',');
    assert CsvRecord(Join(fields, ','), rt) == FieldsRecord(fields, rt);
    assert Field(fields, 6) == Some(fields[6]) && Field(fields, 7) == Some(fields[7]);
  }

  /**
   * A line with no comma (a blank line among them) still yields a record:
   * its dates are `new Date(undefined)`, an Invalid Date, its counts and
   * amount are `NaN`, and every other column is missing.
   */
  lemma CsvShortLine(line: string, rt: JsRuntime)
    requires ',' !in line
    ensures var r := CsvRecord(line, rt);
      && r.arrival == rt.newDate(Undefined) && r.departure == rt.newDate(Undefined)
      && r.guestName == Undefined && r.rooms == NaN && r.persons == NaN
      && r.originalAmount == rt.parseFloat(Undefined)
      && r.hotelId == Undefined && r.propertyName == Undefined
    ensures ValidRuntime(rt) ==> var r := CsvRecord(line, rt);
      r.arrival == None && r.departure == None && r.originalAmount == NaN
  {
    SplitJoin([line], ',');
  }

  /**
   * Such a line never reaches the calendar: wherever its record sits among
   * the tagged bookings, removing it leaves the dictionary as it was.
   */
  lemma ShortLineAddsNothing(ts: seq<Tagged>, i: nat, line: string, rt: JsRuntime)
    requires ValidRuntime(rt) && ',' !in line
    requires i < |ts| && ts[i].rec == CsvRecord(line, rt)
    ensures BuildMap(ts[..i] + ts[i + 1..]) == BuildMap(ts)
  {
    CsvShortLine(line, rt);
    EmptyStayAddsNothing(ts, i);
  }

  // ---------------------------------------------------------------- spreadsheet

  /** One spreadsheet row: columns 3, 4, 6, 7, 8, 11, 17 and 18 taken as they are. */
  function ExcelRecord(row: seq<Value>, rt: JsRuntime): Reservation
  {
    Reservation(
      rt.newDate(Cell(row, 3)),
      rt.newDate(Cell(row, 4)),
      Cell(row, 6),
      Cell(row, 7),
      Cell(row, 8),
      Cell(row, 11),
      Cell(row, 17),
      Cell(row, 18))
  }

  /**
   * `readExcel`'s result: one record per row after the header, in row
   * order, each cell copied without any default (a missing cell stays
   * `undefined`).
   */
  function ReadExcel(sheet: seq<seq<Value>>, rt: JsRuntime): (r: seq<Reservation>)
    ensures |r| == if sheet == [] then 0 else |sheet| - 1
    ensures forall i :: 0 <= i < |r| ==>
      var row := sheet[i + 1];
      && r[i].arrival == rt.newDate(Cell(row, 3)) && r[i].departure == rt.newDate(Cell(row, 4))
      && r[i].guestName == Cell(row, 6) && r[i].rooms == Cell(row, 7)
      && r[i].persons == Cell(row, 8) && r[i].originalAmount == Cell(row, 11)
      && r[i].hotelId == Cell(row, 17) && r[i].propertyName == Cell(row, 18)
  {
    var rows := Tail(sheet);
    seq(|rows|, i requires 0 <= i < |rows| => ExcelRecord(rows[i], rt))
  }
}
