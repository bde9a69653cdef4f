/**
 * The booking record both readers produce, and the raw rows they read it
 * from: a line of delimited text split on commas, or a spreadsheet row
 * already split into cells.
 */
module Bookings {
  import opened Wrappers
  import opened JsValues

  /**
   * A calendar date, as a day number (consecutive dates differ by one). The
   * `YYYY-MM-DD` text a date is keyed by stands for the date it names.
   */
  type Day = int

  /**
   * One reservation as a reader returns it. Dates are `None` when
   * `new Date(...)` gave an Invalid Date; the other fields hold whatever
   * JavaScript value the reader stored there.
   */
  datatype Reservation = Reservation(
    arrival: Option<Day>,
    departure: Option<Day>,
    guestName: Value,
    rooms: Value,
    persons: Value,
    originalAmount: Value,
    hotelId: Value,
    propertyName: Value)

  /** Both dates parsed. */
  predicate HasDates(r: Reservation)
  {
    r.arrival.Some? && r.departure.Some?
  }

  /**
   * The host behaviour the readers call but that is not modelled: `new
   * Date(x)` (a date, or `None` for an Invalid Date) and `parseFloat(x)`.
   */
  datatype JsRuntime = JsRuntime(newDate: Value -> Option<Day>, parseFloat: Value -> Value)

  /**
   * What ECMAScript fixes about those two even without a date parser:
   * `new Date(undefined)` is an Invalid Date (its time value is `NaN`),
   * and `parseFloat(undefined)` is `NaN`.
   */
  predicate ValidRuntime(rt: JsRuntime)
  {
    && rt.newDate(Undefined) == None
    && rt.parseFloat(Undefined) == NaN
  }

  /** `xs.slice(1)`: everything after the first element (nothing when empty). */
  function Tail<T>(xs: seq<T>): (r: seq<T>)
    ensures |r| == if xs == [] then 0 else |xs| - 1
    ensures forall i :: 0 <= i < |r| ==> r[i] == xs[i + 1]
  {
    if xs == [] then [] else xs[1..]
  }

  /** `text.split('\n').slice(1)`: the lines after the header line. */
  function DataLines(text: string): (r: seq<string>)
    ensures |r| == |Split(text, '\n')| - 1
    ensures forall i :: 0 <= i < |r| ==> r[i] == Split(text, '\n')[i + 1]
  {
    Tail(Split(text, '\n'))
  }

  /**
   * A file made of a header line and data lines, joined by newlines, has
   * exactly those data lines after the header is dropped.
   */
  lemma DataLinesOfFile(header: string, lines: seq<string>)
    requires '\n' !in header
    requires forall i :: 0 <= i < |lines| ==> '\n' !in lines[i]
    ensures DataLines(Join([header] + lines, '\n')) == lines
  {
    var all := [header] + lines;
    assert forall k :: 0 <= k < |all| ==> '\n' !in all[k] by {
      forall k | 0 <= k < |all| ensures '\n' !in all[k] {
        if k > 0 { assert all[k] == lines[k - 1]; }
      }
    }
    SplitJoin(all, '\n');
    assert all[1..] == lines;
  }

  /** The i-th field of a split line, `None` (undefined) past its end. */
  function Field(fields: seq<string>, i: nat): (r: Option<string>)
    ensures r.Some? <==> i < |fields|
    ensures r.Some? ==> r.value == fields[i]
  {
    if i < |fields| then Some(fields[i]) else None
  }

  /** The same field as a JavaScript value: the string, or `undefined`. */
  function FieldValue(fields: seq<string>, i: nat): (r: Value)
    ensures i < |fields| ==> r == Str(fields[i])
    ensures i >= |fields| ==> r == Undefined
  {
    match Field(fields, i)
    case None => Undefined
    case Some(s) => Str(s)
  }

  /** `row[i]` for a spreadsheet row: `undefined` past its end. */
  function Cell(row: seq<Value>, i: nat): (r: Value)
    ensures i < |row| ==> r == row[i]
    ensures i >= |row| ==> r == Undefined
  {
    if i < |row| then row[i] else Undefined
  }
}
