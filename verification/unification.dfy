/**
 * `unifyBookings`: tag each reservation with its source (Airbnb first),
 * walk each stay day by day from arrival to departure inclusive, and append
 * an entry for the reservation to that day's bucket. Both revisions hold
 * the same function.
 */
module Unification {
  import opened Wrappers
  import opened Seqs
  import opened JsValues
  import opened Bookings

  datatype Source = Airbnb | Booking

  /** The `source` string the record is tagged with. */
  function SourceName(s: Source): (r: string)
    ensures r == "Airbnb" || r == "Booking"
    ensures (r == "Airbnb") <==> s == Airbnb
  {
    match s
    case Airbnb => "Airbnb"
    case Booking => "Booking"
  }

  /** `{ ...b, source }`: a reservation tagged with where it came from. */
  datatype Tagged = Tagged(rec: Reservation, source: Source)

  /** What is pushed into a day's bucket: the record without its dates. */
  datatype Entry = Entry(
    propertyName: Value,
    guestName: Value,
    rooms: Value,
    persons: Value,
    originalAmount: Value,
    hotelId: Value,
    source: Source)

  /** The `bookingsMap` dictionary: a bucket of entries per day. */
  type BookingsMap = map<Day, seq<Entry>>

  function EntryOf(t: Tagged): (e: Entry)
    ensures e.source == t.source
    ensures e.propertyName == t.rec.propertyName && e.guestName == t.rec.guestName
    ensures e.rooms == t.rec.rooms && e.persons == t.rec.persons
    ensures e.originalAmount == t.rec.originalAmount && e.hotelId == t.rec.hotelId
  {
    var r := t.rec;
    Entry(r.propertyName, r.guestName, r.rooms, r.persons, r.originalAmount, r.hotelId, t.source)
  }

  // ---------------------------------------------------------------- tagging

  /** `data.map(b => ({ ...b, source }))`. */
  function Tag(rs: seq<Reservation>, s: Source): (ts: seq<Tagged>)
    ensures |ts| == |rs|
    ensures forall i :: 0 <= i < |rs| ==> ts[i] == Tagged(rs[i], s)
  {
    seq(|rs|, i requires 0 <= i < |rs| => Tagged(rs[i], s))
  }

  /**
   * `allBookings`: every Airbnb reservation, tagged `Airbnb`, then every
   * Booking reservation, tagged `Booking`; none lost, none reordered.
   */
  function Unified(airbnbData: seq<Reservation>, bookingData: seq<Reservation>): (all: seq<Tagged>)
    ensures |all| == |airbnbData| + |bookingData|
    ensures forall i :: 0 <= i < |airbnbData| ==> all[i] == Tagged(airbnbData[i], Airbnb)
    ensures forall i :: 0 <= i < |bookingData| ==> all[|airbnbData| + i] == Tagged(bookingData[i], Booking)
  {
    Tag(airbnbData, Airbnb) + Tag(bookingData, Booking)
  }

  // ---------------------------------------------------------------- the day walk

  /**
   * `a <= b` on two Date objects, compared here by day number (the time of
   * day is not modelled): false as soon as either is an Invalid Date.
   */
  predicate DateLe(a: Option<Day>, b: Option<Day>)
  {
    a.Some? && b.Some? && a.value <= b.value
  }

  /** The stay of `t` includes day `d`: arrival <= d <= departure, both valid. */
  predicate Covers(t: Tagged, d: Day)
  {
    DateLe(t.rec.arrival, Some(d)) && DateLe(Some(d), t.rec.departure)
  }

  /** The days still to walk from `current` to `departure` inclusive. */
  function StepsLeft(current: Option<Day>, departure: Option<Day>): nat
  {
    if DateLe(current, departure) then departure.value - current.value + 1 else 0
  }

  /** `bookingsMap[d] || []`. */
  function Bucket(m: BookingsMap, d: Day): seq<Entry>
  {
    if d in m then m[d] else []
  }

  /** A key is only ever created together with its first entry. */
  predicate NoEmptyBucket(m: BookingsMap)
  {
    forall d :: d in m ==> m[d] != []
  }

  /** Create the bucket of `d` if absent, then push `e` onto it. */
  function Push(m: BookingsMap, d: Day, e: Entry): BookingsMap
  {
    m[d := Bucket(m, d) + [e]]
  }

  /** Push `e` onto the buckets of days `lo`, `lo + 1`, ..., `hi - 1`, in that order. */
  function PushDays(m: BookingsMap, e: Entry, lo: Day, hi: Day): BookingsMap
    decreases hi - lo
  {
    if hi <= lo then m else Push(PushDays(m, e, lo, hi - 1), hi - 1, e)
  }

  /** What the `while (currentDate <= departure)` walk does for one tagged reservation. */
  function AddStay(m: BookingsMap, t: Tagged): BookingsMap
  {
    if DateLe(t.rec.arrival, t.rec.departure)
    then PushDays(m, EntryOf(t), t.rec.arrival.value, t.rec.departure.value + 1)
    else m
  }

  /** The map after walking every tagged reservation of `ts`, in order, from an empty map. */
  function BuildMap(ts: seq<Tagged>): BookingsMap
  {
    if ts == [] then map[] else AddStay(BuildMap(ts[..|ts| - 1]), ts[|ts| - 1])
  }

  /**
   * `unifyBookings`: the dictionary the nested loops build is the one
   * `BuildMap` describes, and none of its buckets is empty.
   */
  method UnifyBookings(airbnbData: seq<Reservation>, bookingData: seq<Reservation>)
    returns (bookingsMap: BookingsMap)
    ensures bookingsMap == BuildMap(Unified(airbnbData, bookingData))
    ensures NoEmptyBucket(bookingsMap)
  {
    var allBookings := Unified(airbnbData, bookingData);
    bookingsMap := map[];
    var i := 0;
    while i < |allBookings|
      invariant 0 <= i <= |allBookings|
      invariant bookingsMap == BuildMap(allBookings[..i])
      invariant NoEmptyBucket(bookingsMap)
    {
      var t := allBookings[i];
      bookingsMap := WalkStay(bookingsMap, t);
      BuildMapStep(allBookings, i);
      i := i + 1;
    }
    assert allBookings[..i] == allBookings;
  }

  lemma BuildMapStep(ts: seq<Tagged>, i: nat)
    requires i < |ts|
    ensures BuildMap(ts[..i + 1]) == AddStay(BuildMap(ts[..i]), ts[i])
  {
    assert ts[..i + 1][..i] == ts[..i];
  }

  /**
   * The `forEach` callback of `unifyBookings`: walk the stay of `t` from
   * its arrival while the current date is `<=` its departure, pushing its
   * entry onto each day's bucket, creating the bucket first if needed.
   */
  method WalkStay(bookingsMap0: BookingsMap, t: Tagged) returns (bookingsMap: BookingsMap)
    requires NoEmptyBucket(bookingsMap0)
    ensures bookingsMap == AddStay(bookingsMap0, t)
    ensures NoEmptyBucket(bookingsMap)
  {
      bookingsMap := bookingsMap0;
      var entry := EntryOf(t);
      ghost var before := bookingsMap;
      var currentDate := t.rec.arrival;
      while DateLe(currentDate, t.rec.departure)
        invariant currentDate.Some? <==> t.rec.arrival.Some?
        invariant currentDate.Some? ==> t.rec.arrival.value <= currentDate.value
        invariant !DateLe(t.rec.arrival, t.rec.departure) ==> currentDate == t.rec.arrival
        invariant currentDate.Some? && DateLe(t.rec.arrival, t.rec.departure)
          ==> currentDate.value <= t.rec.departure.value + 1
        invariant bookingsMap == if currentDate.Some?
          then PushDays(before, entry, t.rec.arrival.value, currentDate.value) else before
        invariant NoEmptyBucket(bookingsMap)
        decreases StepsLeft(currentDate, t.rec.departure)
      {
        // `day` stands for the `YYYY-MM-DD` key `dateString` of that date.
        var day := currentDate.value;
        if day !in bookingsMap {
          bookingsMap := bookingsMap[day := []];
        }
        bookingsMap := bookingsMap[day := bookingsMap[day] + [entry]];
        currentDate := Some(day + 1);
      }
  }

  // ---------------------------------------------------------------- what lands where

  /** The entry `t` contributes to day `d`, if its stay covers `d`. */
  function Hit(t: Tagged, d: Day): (r: Option<Entry>)
    ensures r.Some? <==> Covers(t, d)
  {
    if Covers(t, d) then Some(EntryOf(t)) else None
  }

  function Hits(ts: seq<Tagged>, d: Day): (r: seq<Option<Entry>>)
    ensures |r| == |ts|
    ensures forall i :: 0 <= i < |ts| ==> r[i] == Hit(ts[i], d)
  {
    seq(|ts|, i requires 0 <= i < |ts| => Hit(ts[i], d))
  }

  /** The entries of the reservations of `ts` whose stay covers `d`, in order. */
  function Covering(ts: seq<Tagged>, d: Day): seq<Entry>
  {
    DropNulls(Hits(ts, d))
  }

  /** Pushing `e` onto a run of days adds it once to each of those days and nowhere else. */
  lemma {:induction false} PushDaysBucket(m: BookingsMap, e: Entry, lo: Day, hi: Day, d: Day)
    ensures Bucket(PushDays(m, e, lo, hi), d) == Bucket(m, d) + (if lo <= d < hi then [e] else [])
    ensures d in PushDays(m, e, lo, hi) <==> d in m || lo <= d < hi
    decreases hi - lo
  {
    if lo < hi {
      PushDaysBucket(m, e, lo, hi - 1, d);
    }
  }

  /** One stay adds its entry exactly once to each covered day's bucket, and touches nothing else. */
  lemma AddStayBucket(m: BookingsMap, t: Tagged, d: Day)
    ensures Bucket(AddStay(m, t), d) == Bucket(m, d) + (if Covers(t, d) then [EntryOf(t)] else [])
    ensures d in AddStay(m, t) <==> d in m || Covers(t, d)
  {
    if DateLe(t.rec.arrival, t.rec.departure) {
      PushDaysBucket(m, EntryOf(t), t.rec.arrival.value, t.rec.departure.value + 1, d);
    }
  }

  /**
   * The bucket of every day holds exactly the entries of the reservations
   * covering that day, in unification order; a day has a key exactly when
   * some reservation covers it, and no bucket is empty.
   */
  lemma {:induction false} BuildMapBuckets(ts: seq<Tagged>, d: Day)
    ensures Bucket(BuildMap(ts), d) == Covering(ts, d)
    ensures d in BuildMap(ts) <==> Covering(ts, d) != []
  {
    if ts != [] {
      var n := |ts| - 1;
      BuildMapBuckets(ts[..n], d);
      AddStayBucket(BuildMap(ts[..n]), ts[n], d);
      assert Hits(ts, d) == Hits(ts[..n], d) + [Hit(ts[n], d)];
      DropNullsAppend(Hits(ts[..n], d), [Hit(ts[n], d)]);
      assert DropNulls([Hit(ts[n], d)]) == (if Covers(ts[n], d) then [EntryOf(ts[n])] else []) by {
        assert [Hit(ts[n], d)][..0] == [];
      }
    }
  }

  /**
   * Exact expansion: the bucket of day d lists, in unification order, one
   * entry for each reservation whose stay covers d, and nothing else.
   */
  lemma BucketExact(ts: seq<Tagged>, d: Day)
    ensures var b := Bucket(BuildMap(ts), d);
      var ix := PresentIndices(Hits(ts, d));
      && |b| == |ix|
      && StrictlyIncreasing(ix)
      && (forall k :: 0 <= k < |ix| ==> ix[k] < |ts| && b[k] == EntryOf(ts[ix[k]]))
      && (forall i :: 0 <= i < |ts| ==> (i in ix <==> Covers(ts[i], d)))
  {
    BuildMapBuckets(ts, d);
    DropNullsExact(Hits(ts, d));
  }

  /**
   * Within every bucket all Airbnb entries come before all Booking entries,
   * each source keeping its input order.
   */
  lemma BucketSourceOrder(airbnbData: seq<Reservation>, bookingData: seq<Reservation>, d: Day)
    ensures var b := Bucket(BuildMap(Unified(airbnbData, bookingData)), d);
      var first := Covering(Tag(airbnbData, Airbnb), d);
      && b == first + Covering(Tag(bookingData, Booking), d)
      && (forall k :: 0 <= k < |b| ==> (b[k].source == Airbnb <==> k < |first|))
  {
    var ta, tb := Tag(airbnbData, Airbnb), Tag(bookingData, Booking);
    BuildMapBuckets(ta + tb, d);
    HitsAppend(ta, tb, d);
    DropNullsAppend(Hits(ta, d), Hits(tb, d));
    var first, second := Covering(ta, d), Covering(tb, d);
    var b := first + second;
    SourcesOf(ta, d, Airbnb);
    SourcesOf(tb, d, Booking);
    forall k | 0 <= k < |b|
      ensures b[k].source == Airbnb <==> k < |first|
    {
      if k >= |first| {
        assert b[k] == second[k - |first|];
      }
    }
  }

  /** Entries drawn from reservations all tagged `s` carry source `s`. */
  lemma SourcesOf(ts: seq<Tagged>, d: Day, s: Source)
    requires forall i :: 0 <= i < |ts| ==> ts[i].source == s
    ensures forall k :: 0 <= k < |Covering(ts, d)| ==> Covering(ts, d)[k].source == s
  {
    DropNullsExact(Hits(ts, d));
  }

  /**
   * A reservation whose stay covers no day (an Invalid Date, or arrival
   * after departure) can be removed without changing the map: the walk
   * never runs for it.
   */
  lemma EmptyStayAddsNothing(ts: seq<Tagged>, i: nat)
    requires i < |ts|
    requires !DateLe(ts[i].rec.arrival, ts[i].rec.departure)
    ensures BuildMap(ts[..i] + ts[i + 1..]) == BuildMap(ts)
  {
    var rest := ts[..i] + ts[i + 1..];
    forall d
      ensures Bucket(BuildMap(rest), d) == Bucket(BuildMap(ts), d)
      ensures d in BuildMap(rest) <==> d in BuildMap(ts)
    {
      EmptyStayCovering(ts, i, d);
      BuildMapBuckets(rest, d);
      BuildMapBuckets(ts, d);
    }
    SameBuckets(BuildMap(rest), BuildMap(ts));
  }

  lemma EmptyStayCovering(ts: seq<Tagged>, i: nat, d: Day)
    requires i < |ts|
    requires !DateLe(ts[i].rec.arrival, ts[i].rec.departure)
    ensures Covering(ts[..i] + ts[i + 1..], d) == Covering(ts, d)
  {
    var pre, post := ts[..i], ts[i + 1..];
    assert ts == (pre + [ts[i]]) + post;
    HitsAppend(pre + [ts[i]], post, d);
    HitsAppend(pre, [ts[i]], d);
    HitsAppend(pre, post, d);
    var none := Hits([ts[i]], d);
    assert none == [None];
    DropNullsAppend(Hits(pre, d) + none, Hits(post, d));
    DropNullsAppend(Hits(pre, d), none);
    DropNullsAppend(Hits(pre, d), Hits(post, d));
    assert none[..0] == [];
  }

  lemma HitsAppend(xs: seq<Tagged>, ys: seq<Tagged>, d: Day)
    ensures Hits(xs + ys, d) == Hits(xs, d) + Hits(ys, d)
  {
  }

  /** Two maps with the same keys and the same buckets are equal. */
  lemma SameBuckets(m1: BookingsMap, m2: BookingsMap)
    requires forall d :: (d in m1 <==> d in m2) && Bucket(m1, d) == Bucket(m2, d)
    ensures m1 == m2
  {
    assert m1.Keys == m2.Keys by {
      forall d | d in m1.Keys ensures d in m2.Keys {
        assert Bucket(m1, d) == Bucket(m2, d);
      }
      forall d | d in m2.Keys ensures d in m1.Keys {
        assert Bucket(m1, d) == Bucket(m2, d);
      }
    }
    forall d | d in m1 ensures m1[d] == m2[d] {
      assert Bucket(m1, d) == Bucket(m2, d);
    }
  }

  // ---------------------------------------------------------------- how many entries

  /** The number of days a stay occupies: departure - arrival + 1, or none. */
  function StayLength(t: Tagged): nat
  {
    if DateLe(t.rec.arrival, t.rec.departure)
    then t.rec.departure.value - t.rec.arrival.value + 1 else 0
  }

  /** The stay lies within the n days from `lo`. */
  predicate StayWithin(t: Tagged, lo: Day, n: nat)
  {
    DateLe(t.rec.arrival, t.rec.departure) ==>
      lo <= t.rec.arrival.value && t.rec.departure.value < lo + n
  }

  /** The number of entries in the buckets of the n days from `lo`. */
  function EntriesIn(m: BookingsMap, lo: Day, n: nat): nat
  {
    if n == 0 then 0 else EntriesIn(m, lo, n - 1) + |Bucket(m, lo + n - 1)|
  }

  /** The number of days among the n days from `lo` that the stay covers. */
  function CoveredDays(t: Tagged, lo: Day, n: nat): nat
  {
    if n == 0 then 0 else CoveredDays(t, lo, n - 1) + (if Covers(t, lo + n - 1) then 1 else 0)
  }

  lemma {:induction false} CoveredDaysCount(t: Tagged, lo: Day, n: nat)
    requires StayWithin(t, lo, n)
    ensures CoveredDays(t, lo, n) == StayLength(t)
  {
    CoveredDaysClosed(t, lo, n);
  }

  lemma {:induction false} CoveredDaysClosed(t: Tagged, lo: Day, n: nat)
    ensures DateLe(t.rec.arrival, t.rec.departure) ==>
      var a, b := t.rec.arrival.value, t.rec.departure.value;
      var first := if a < lo then lo else a;
      var last := if b < lo + n - 1 then b else lo + n - 1;
      CoveredDays(t, lo, n) == if first <= last then last - first + 1 else 0
    ensures !DateLe(t.rec.arrival, t.rec.departure) ==> CoveredDays(t, lo, n) == 0
  {
    if n > 0 {
      CoveredDaysClosed(t, lo, n - 1);
    }
  }

  /**
   * Walking one stay adds departure - arrival + 1 entries in all (none when
   * arrival is after departure or a date is invalid), counted over any run
   * of days that contains the stay.
   */
  lemma {:induction false} AddStayCount(m: BookingsMap, t: Tagged, lo: Day, n: nat)
    requires StayWithin(t, lo, n)
    ensures EntriesIn(AddStay(m, t), lo, n) == EntriesIn(m, lo, n) + StayLength(t)
  {
    AddStayCountAll(m, t, lo, n);
    CoveredDaysCount(t, lo, n);
  }

  lemma {:induction false} AddStayCountAll(m: BookingsMap, t: Tagged, lo: Day, n: nat)
    ensures EntriesIn(AddStay(m, t), lo, n) == EntriesIn(m, lo, n) + CoveredDays(t, lo, n)
  {
    if n > 0 {
      AddStayCountAll(m, t, lo, n - 1);
      AddStayBucket(m, t, lo + n - 1);
    }
  }

  /** The sum of the stay lengths of `ts`. */
  function TotalStay(ts: seq<Tagged>): nat
  {
    if ts == [] then 0 else TotalStay(ts[..|ts| - 1]) + StayLength(ts[|ts| - 1])
  }

  /**
   * Over any run of days containing every stay, the map holds exactly as
   * many entries as the stays have days.
   */
  lemma {:induction false} BuildMapCount(ts: seq<Tagged>, lo: Day, n: nat)
    requires forall i :: 0 <= i < |ts| ==> StayWithin(ts[i], lo, n)
    ensures EntriesIn(BuildMap(ts), lo, n) == TotalStay(ts)
  {
    if ts == [] {
      EmptyMapCount(lo, n);
    } else {
      var k := |ts| - 1;
      BuildMapCount(ts[..k], lo, n);
      AddStayCount(BuildMap(ts[..k]), ts[k], lo, n);
    }
  }

  lemma {:induction false} EmptyMapCount(lo: Day, n: nat)
    ensures EntriesIn(map[], lo, n) == 0
  {
    if n > 0 {
      EmptyMapCount(lo, n - 1);
    }
  }
}
