/** The in-memory booking store of lib/shared-data.ts: the Booking record, the
    five seeded bookings, the queries (pure functions of the array) and the
    store object whose methods push, overwrite and splice the array. */
module SharedData {
  import opened Wrappers
  import opened JsString
  import opened JsNumber

  /** One booking. `createdAt` is an ISO time stamp, kept as an opaque string. */
  datatype Booking = Booking(
    id: string,
    passengername: string,
    busnumber: string,
    seatnumber: string,
    createdAt: string)

  /** The argument of addBooking: a Booking without `id` and `createdAt`. */
  datatype BookingInput = BookingInput(passengername: string, busnumber: string, seatnumber: string)

  /** The argument of updateBooking, a `Partial<Booking>`: None is an absent field. */
  datatype BookingPatch = BookingPatch(
    id: Option<string>,
    passengername: Option<string>,
    busnumber: Option<string>,
    seatnumber: Option<string>,
    createdAt: Option<string>)

  /** The array the module starts with; `now` stands for the clock reading. */
  function Seed(now: string): seq<Booking> {
    [ Booking("1", "John Doe", "BUS001", "A1", now),
      Booking("2", "Jane Smith", "BUS002", "B5", now),
      Booking("3", "Mike Johnson", "BUS001", "C3", now),
      Booking("4", "Sarah Wilson", "BUS003", "A2", now),
      Booking("5", "David Brown", "BUS002", "D1", now) ]
  }

  // ---------------------------------------------------------------------------
  // Invariants the store is meant to keep (it checks none of them itself)

  /** No two bookings share an id. */
  predicate IdsUnique(bs: seq<Booking>) {
    forall i, j :: 0 <= i < j < |bs| ==> bs[i].id != bs[j].id
  }

  /** No two bookings hold the same seat on the same bus. */
  predicate SeatsUnique(bs: seq<Booking>) {
    forall i, j :: 0 <= i < j < |bs| ==>
      bs[i].busnumber != bs[j].busnumber || bs[i].seatnumber != bs[j].seatnumber
  }

  /** Every id reads as a number under parseInt (none gives NaN). */
  predicate AllIdsParse(bs: seq<Booking>) {
    forall i :: 0 <= i < |bs| ==> ParseInt(bs[i].id).Some?
  }

  // ---------------------------------------------------------------------------
  // Queries

  /** `bookings.findIndex(b => b.id === id)`: the first index holding `id`, or -1. */
  function FindIndexById(bs: seq<Booking>, id: string): (k: int)
    ensures -1 <= k < |bs|
    ensures k == -1 <==> forall i :: 0 <= i < |bs| ==> bs[i].id != id
    ensures 0 <= k ==> bs[k].id == id && forall i :: 0 <= i < k ==> bs[i].id != id
  {
    if bs == [] then -1
    else if bs[0].id == id then 0
    else
      var k := FindIndexById(bs[1..], id);
      if k == -1 then -1 else k + 1
  }

  /** getBookingById: the first booking with that id, or nothing. */
  function GetBookingById(bs: seq<Booking>, id: string): (r: Option<Booking>)
    ensures r.None? <==> forall i :: 0 <= i < |bs| ==> bs[i].id != id
    ensures r.Some? ==> exists k :: 0 <= k < |bs| && bs[k] == r.value && r.value.id == id
                                    && forall i :: 0 <= i < k ==> bs[i].id != id
  {
    var k := FindIndexById(bs, id);
    if k == -1 then None else Some(bs[k])
  }

  /** Passenger names compared as getBookingByName does, after lower-casing both. */
  predicate SameName(b: Booking, name: string) {
    ToLower(b.passengername) == ToLower(name)
  }

  /** getBookingByName: the first booking whose name matches ignoring case, or nothing. */
  function GetBookingByName(bs: seq<Booking>, name: string): (r: Option<Booking>)
    ensures r.None? <==> forall i :: 0 <= i < |bs| ==> !SameName(bs[i], name)
    ensures r.Some? ==> exists k :: 0 <= k < |bs| && bs[k] == r.value && SameName(r.value, name)
                                    && forall i :: 0 <= i < k ==> !SameName(bs[i], name)
  {
    if bs == [] then None
    else if SameName(bs[0], name) then Some(bs[0])
    else
      var r := GetBookingByName(bs[1..], name);
      assert r.Some? ==> exists k :: 0 <= k < |bs[1..]| && bs[1..][k] == r.value
                                     && forall i :: 0 <= i < k ==> !SameName(bs[1..][i], name);
      assert r.Some? ==> exists k :: 0 <= k < |bs| && bs[k] == r.value
                                     && forall i :: 0 <= i < k ==> !SameName(bs[i], name) by {
        if r.Some? {
          var k :| 0 <= k < |bs[1..]| && bs[1..][k] == r.value
                   && forall i :: 0 <= i < k ==> !SameName(bs[1..][i], name);
          assert bs[k + 1] == r.value;
          assert forall i :: 0 <= i < k + 1 ==> !SameName(bs[i], name) by {
            forall i | 0 <= i < k + 1 ensures !SameName(bs[i], name) {
              if i > 0 { assert bs[i] == bs[1..][i - 1]; }
            }
          }
        }
      }
      r
  }

  /** The record a booking occupies the seat with, unless it has the excluded id. */
  predicate Occupies(b: Booking, busnumber: string, seatnumber: string, excludeId: Option<string>) {
    b.busnumber == busnumber && b.seatnumber == seatnumber
    && (excludeId.None? || b.id != excludeId.value)
  }

  /** isSeatTaken: `bookings.some(...)` over the array. An absent `excludeId`
      is `undefined`, which no string id equals, so it excludes nothing. */
  function IsSeatTaken(bs: seq<Booking>, busnumber: string, seatnumber: string, excludeId: Option<string>): (r: bool)
    ensures r <==> exists i :: 0 <= i < |bs| && Occupies(bs[i], busnumber, seatnumber, excludeId)
  {
    if bs == [] then false
    else
      var rest := IsSeatTaken(bs[1..], busnumber, seatnumber, excludeId);
      assert rest ==> exists i :: 0 <= i < |bs| && Occupies(bs[i], busnumber, seatnumber, excludeId) by {
        if rest {
          var i :| 0 <= i < |bs[1..]| && Occupies(bs[1..][i], busnumber, seatnumber, excludeId);
          assert bs[i + 1] == bs[1..][i];
        }
      }
      assert (exists i :: 0 <= i < |bs| && Occupies(bs[i], busnumber, seatnumber, excludeId))
             ==> Occupies(bs[0], busnumber, seatnumber, excludeId) || rest by {
        if exists i :: 0 <= i < |bs| && Occupies(bs[i], busnumber, seatnumber, excludeId) {
          var i :| 0 <= i < |bs| && Occupies(bs[i], busnumber, seatnumber, excludeId);
          if i > 0 { assert bs[1..][i - 1] == bs[i]; }
        }
      }
      Occupies(bs[0], busnumber, seatnumber, excludeId) || rest
  }

  /** `Math.max(...xs, 0)` over numbers that may be NaN (None): NaN as soon as
      one is NaN, otherwise the largest of them and 0. */
  function MaxOrNaN(xs: seq<Option<int>>): (r: Option<int>)
    ensures r.None? <==> exists i :: 0 <= i < |xs| && xs[i].None?
    ensures r.Some? ==> 0 <= r.value
    ensures r.Some? ==> forall i :: 0 <= i < |xs| ==> xs[i].value <= r.value
    ensures r.Some? ==> r.value == 0 || exists i :: 0 <= i < |xs| && xs[i] == Some(r.value)
  {
    if xs == [] then Some(0)
    else
      var rest := MaxOrNaN(xs[1..]);
      assert forall i :: 1 <= i < |xs| ==> xs[i] == xs[1..][i - 1];
      if xs[0].None? then None
      else if rest.None? then
        assert exists i :: 0 <= i < |xs| && xs[i].None? by {
          var i :| 0 <= i < |xs[1..]| && xs[1..][i].None?;
          assert xs[i + 1] == xs[1..][i];
        }
        None
      else
        var v, m := xs[0].value, rest.value;
        assert m == 0 || exists i :: 0 <= i < |xs| && xs[i] == Some(m) by {
          if m != 0 {
            var i :| 0 <= i < |xs[1..]| && xs[1..][i] == Some(m);
            assert xs[i + 1] == xs[1..][i];
          }
        }
        Some(if v > m then v else m)
  }

  /** `bookings.map(b => Number.parseInt(b.id))`. */
  function ParsedIds(bs: seq<Booking>): (xs: seq<Option<int>>)
    ensures |xs| == |bs| && forall i :: 0 <= i < |bs| ==> xs[i] == ParseInt(bs[i].id)
  {
    if bs == [] then [] else [ParseInt(bs[0].id)] + ParsedIds(bs[1..])
  }

  /** The id addBooking assigns: one more than the largest of 0 and the ids,
      as a decimal string; "NaN" when some id does not parse. */
  function NextId(bs: seq<Booking>): string {
    match MaxOrNaN(ParsedIds(bs))
    case None => "NaN"
    case Some(m) => ToDecimal(m + 1)
  }

  /** What the generated id is: "1" on an empty array, "NaN" once an id does
      not parse, and otherwise the decimal numeral of one above the largest
      of 0 and the id values, so that it differs from every id present. */
  lemma NextIdSpec(bs: seq<Booking>)
    ensures bs == [] ==> NextId(bs) == "1"
    ensures !AllIdsParse(bs) ==> NextId(bs) == "NaN"
    ensures AllIdsParse(bs) ==>
      var v := ParseInt(NextId(bs));
      && v.Some?
      && (forall i :: 0 <= i < |bs| ==> ParseInt(bs[i].id).value < v.value)
      && 1 <= v.value
      && (v.value == 1 || exists i :: 0 <= i < |bs| && ParseInt(bs[i].id).value == v.value - 1)
    ensures AllIdsParse(bs) ==> forall i :: 0 <= i < |bs| ==> bs[i].id != NextId(bs)
  {
    var xs := ParsedIds(bs);
    var m := MaxOrNaN(xs);
    if m.Some? {
      ParseIntOfToDecimal(m.value + 1);
      assert bs == [] ==> ToDecimal(1) == "1";
    } else {
      var i :| 0 <= i < |xs| && xs[i].None?;
      assert ParseInt(bs[i].id).None?;
    }
  }

  /** When every id parses, the generated id is exactly the decimal numeral of
      a positive value (so no "06" or " 6"), and that value is what
      `parseInt` reads back from it. */
  lemma NextIdIsNumeral(bs: seq<Booking>)
    requires AllIdsParse(bs)
    ensures exists n: nat :: 1 <= n && NextId(bs) == ToDecimal(n) && ParseInt(NextId(bs)) == Some(n)
  {
    var m := MaxOrNaN(ParsedIds(bs));
    ParseIntOfToDecimal(m.value + 1);
  }

  /** The record addBooking builds and pushes. */
  function Created(bs: seq<Booking>, b: BookingInput, now: string): Booking {
    Booking(NextId(bs), b.passengername, b.busnumber, b.seatnumber, now)
  }

  /** `{ ...b, ...u }`: every field present in `u` overrides the one in `b`. */
  function Merge(b: Booking, u: BookingPatch): Booking {
    Booking(
      if u.id.Some? then u.id.value else b.id,
      if u.passengername.Some? then u.passengername.value else b.passengername,
      if u.busnumber.Some? then u.busnumber.value else b.busnumber,
      if u.seatnumber.Some? then u.seatnumber.value else b.seatnumber,
      if u.createdAt.Some? then u.createdAt.value else b.createdAt)
  }

  // ---------------------------------------------------------------------------
  // The store

  /** The module-level `bookings` array. The queries above read `bookings`;
      the methods below are the exported functions that change it. */
  class BookingStore {
    var bookings: seq<Booking>

    /** The module's initialisation with the seed records. */
    constructor (now: string)
      ensures bookings == Seed(now)
    {
      bookings := Seed(now);
    }

    /** getBookings: the whole array, in order. */
    method GetBookings() returns (r: seq<Booking>)
      ensures r == bookings
    {
      r := bookings;
    }

    /** addBooking: push a record carrying `b`'s fields, the next id and the
        current time `now`, and return it. No seat check is made. */
    method AddBooking(b: BookingInput, now: string) returns (r: Booking)
      modifies this
      ensures r.id == NextId(old(bookings)) && r.createdAt == now
      ensures r.passengername == b.passengername && r.busnumber == b.busnumber && r.seatnumber == b.seatnumber
      ensures bookings == old(bookings) + [r]
    {
      r := Created(bookings, b, now);
      bookings := bookings + [r];
    }

    /** updateBooking: overwrite the first record with that id by its merge
        with `updates` and return the new record; null (None) when no record
        has that id. */
    method UpdateBooking(id: string, updates: BookingPatch) returns (r: Option<Booking>)
      modifies this
      ensures FindIndexById(old(bookings), id) == -1 ==> r == None && bookings == old(bookings)
      ensures var k := FindIndexById(old(bookings), id);
        k != -1 ==> r == Some(Merge(old(bookings)[k], updates)) && bookings == old(bookings)[k := r.value]
    {
      var index := FindIndexById(bookings, id);
      if index == -1 {
        return None;
      }
      bookings := bookings[index := Merge(bookings[index], updates)];
      r := Some(bookings[index]);
    }

    /** deleteBooking: splice out the first record with that id and return it;
        null (None) when no record has that id. */
    method DeleteBooking(id: string) returns (r: Option<Booking>)
      modifies this
      ensures FindIndexById(old(bookings), id) == -1 ==> r == None && bookings == old(bookings)
      ensures var k := FindIndexById(old(bookings), id);
        k != -1 ==> r == Some(old(bookings)[k]) && bookings == old(bookings)[..k] + old(bookings)[k + 1..]
    {
      var index := FindIndexById(bookings, id);
      if index == -1 {
        return None;
      }
      var deletedBooking := bookings[index];
      bookings := bookings[..index] + bookings[index + 1..];
      r := Some(deletedBooking);
    }
  }

  // ---------------------------------------------------------------------------
  // Properties of the seed data and of the operations

  /** Ids "1" to "5" parse to 1 to 5. */
  lemma IdsOneToFive(bs: seq<Booking>)
    requires |bs| == 5 && bs[0].id == "1" && bs[1].id == "2" && bs[2].id == "3"
    requires bs[3].id == "4" && bs[4].id == "5"
    ensures ParseInt(bs[0].id) == Some(1) && ParseInt(bs[1].id) == Some(2) && ParseInt(bs[2].id) == Some(3)
    ensures ParseInt(bs[3].id) == Some(4) && ParseInt(bs[4].id) == Some(5)
    ensures AllIdsParse(bs)
  {
    ParseIntOfToDecimal(1); ParseIntOfToDecimal(2); ParseIntOfToDecimal(3);
    ParseIntOfToDecimal(4); ParseIntOfToDecimal(5);
    assert ToDecimal(1) == "1" && ToDecimal(2) == "2" && ToDecimal(3) == "3";
    assert ToDecimal(4) == "4" && ToDecimal(5) == "5";
    forall i | 0 <= i < |bs| ensures ParseInt(bs[i].id).Some? {
      if i == 0 { } else if i == 1 { } else if i == 2 { } else if i == 3 { } else { }
    }
  }

  /** No two seed bookings share an id or a (bus, seat) pair, and every seed id parses. */
  lemma SeedIsWellFormed(now: string)
    ensures IdsUnique(Seed(now)) && SeatsUnique(Seed(now)) && AllIdsParse(Seed(now))
  {
    SeedIdsAndSeatsDistinct(now);
    var bs := Seed(now);
    IdsOneToFive(bs);
  }

  lemma SeedIdsAndSeatsDistinct(now: string)
    ensures IdsUnique(Seed(now)) && SeatsUnique(Seed(now))
  {
  }

  /** The first booking added to the seeded store gets id "6". */
  lemma SeedNextId(now: string)
    ensures NextId(Seed(now)) == "6"
  {
    var bs := Seed(now);
    NextIdAfterOneToFive(bs);
  }

  lemma NextIdAfterOneToFive(bs: seq<Booking>)
    requires |bs| == 5 && bs[0].id == "1" && bs[1].id == "2" && bs[2].id == "3"
    requires bs[3].id == "4" && bs[4].id == "5"
    ensures NextId(bs) == "6"
  {
    IdsOneToFive(bs);
    var xs := ParsedIds(bs);
    forall i | 0 <= i < |xs| ensures xs[i].Some? && xs[i].value <= 5 {
      if i == 0 { } else if i == 1 { } else if i == 2 { } else if i == 3 { } else { }
    }
    var m := MaxOrNaN(xs);
    assert m.Some?;
    assert xs[4] == Some(5);
    assert m.value == 5;
    assert ToDecimal(6) == "6";
  }

  /** Name search ignores case: "john doe" finds the seeded "John Doe". */
  lemma SeedFindsJohnDoe(now: string)
    ensures GetBookingByName(Seed(now), "john doe") == Some(Seed(now)[0])
  {
    assert ToLower("John Doe") == "john doe";
    assert ToLower("john doe") == "john doe";
  }

  /** Searching by a name and by its lower-cased form gives the same booking. */
  lemma {:induction false} GetBookingByNameIgnoresCase(bs: seq<Booking>, name: string)
    ensures GetBookingByName(bs, name) == GetBookingByName(bs, ToLower(name))
  {
    ToLowerIdempotent(name);
    if bs != [] {
      GetBookingByNameIgnoresCase(bs[1..], name);
    }
  }

  /** Pushing the created record keeps ids unique and parseable: the new id
      exceeds every existing one. */
  lemma AddKeepsIdsUnique(bs: seq<Booking>, b: BookingInput, now: string)
    requires IdsUnique(bs) && AllIdsParse(bs)
    ensures IdsUnique(bs + [Created(bs, b, now)]) && AllIdsParse(bs + [Created(bs, b, now)])
  {
    NextIdSpec(bs);
    var bs' := bs + [Created(bs, b, now)];
    assert forall i :: 0 <= i < |bs| ==> bs'[i] == bs[i];
  }

  /** After a push the new seat is taken; on a store without double bookings
      the push keeps it so exactly when the seat was free before, which the
      store itself never checks. */
  lemma AddSeatInvariant(bs: seq<Booking>, b: BookingInput, now: string)
    requires SeatsUnique(bs)
    ensures IsSeatTaken(bs + [Created(bs, b, now)], b.busnumber, b.seatnumber, None)
    ensures SeatsUnique(bs + [Created(bs, b, now)]) <==> !IsSeatTaken(bs, b.busnumber, b.seatnumber, None)
  {
    var c := Created(bs, b, now);
    var bs' := bs + [c];
    assert Occupies(bs'[|bs|], b.busnumber, b.seatnumber, None);
    assert forall i :: 0 <= i < |bs| ==> bs'[i] == bs[i];
    if IsSeatTaken(bs, b.busnumber, b.seatnumber, None) {
      var i :| 0 <= i < |bs| && Occupies(bs[i], b.busnumber, b.seatnumber, None);
      assert bs'[i].busnumber == bs'[|bs|].busnumber && bs'[i].seatnumber == bs'[|bs|].seatnumber;
    }
  }

  /** What addBooking returns is what getBookingById finds under the new id. */
  lemma AddThenGetById(bs: seq<Booking>, b: BookingInput, now: string)
    requires AllIdsParse(bs)
    ensures GetBookingById(bs + [Created(bs, b, now)], NextId(bs)) == Some(Created(bs, b, now))
  {
    NextIdSpec(bs);
    var bs' := bs + [Created(bs, b, now)];
    assert forall i :: 0 <= i < |bs| ==> bs'[i] == bs[i];
    assert bs'[|bs|].id == NextId(bs);
    assert forall i :: 0 <= i < |bs| ==> bs'[i].id != NextId(bs);
    var k := FindIndexById(bs', NextId(bs));
    assert k == |bs|;
  }

  /** A booking never conflicts with its own seat once its own id is excluded,
      although the seat counts as taken without the exclusion. */
  lemma SelfSeatIsFree(bs: seq<Booking>, k: nat)
    requires SeatsUnique(bs) && k < |bs|
    ensures !IsSeatTaken(bs, bs[k].busnumber, bs[k].seatnumber, Some(bs[k].id))
    ensures IsSeatTaken(bs, bs[k].busnumber, bs[k].seatnumber, None)
  {
    var b := bs[k];
    assert Occupies(bs[k], b.busnumber, b.seatnumber, None);
    forall i | 0 <= i < |bs| ensures !Occupies(bs[i], b.busnumber, b.seatnumber, Some(b.id)) {
      if i != k {
        var lo, hi := if i < k then i else k, if i < k then k else i;
        assert bs[lo].busnumber != bs[hi].busnumber || bs[lo].seatnumber != bs[hi].seatnumber;
      }
    }
  }

  /** Overwriting the record at `k` keeps the invariants: ids when the new
      record keeps the old id, seats when its seat is free apart from that id. */
  lemma ReplaceKeepsInvariants(bs: seq<Booking>, k: nat, m: Booking)
    requires IdsUnique(bs) && k < |bs|
    ensures m.id == bs[k].id ==> IdsUnique(bs[k := m])
    ensures SeatsUnique(bs) && !IsSeatTaken(bs, m.busnumber, m.seatnumber, Some(bs[k].id))
            ==> SeatsUnique(bs[k := m])
  {
    var bs' := bs[k := m];
    if SeatsUnique(bs) && !IsSeatTaken(bs, m.busnumber, m.seatnumber, Some(bs[k].id)) {
      forall i, j | 0 <= i < j < |bs'|
        ensures bs'[i].busnumber != bs'[j].busnumber || bs'[i].seatnumber != bs'[j].seatnumber
      {
        if i == k {
          assert !Occupies(bs[j], m.busnumber, m.seatnumber, Some(bs[k].id));
        } else if j == k {
          assert !Occupies(bs[i], m.busnumber, m.seatnumber, Some(bs[k].id));
        }
      }
    }
  }

  /** updateBooking on a store with unique ids: the merged record keeps the
      id invariants when the patch leaves the id alone, and the seat
      invariant when the merged seat is free apart from the record itself. */
  lemma UpdateKeepsInvariants(bs: seq<Booking>, id: string, u: BookingPatch)
    requires IdsUnique(bs) && FindIndexById(bs, id) != -1
    ensures var k := FindIndexById(bs, id); var m := Merge(bs[k], u);
      && (u.id.None? || u.id == Some(id) ==> IdsUnique(bs[k := m]))
      && (SeatsUnique(bs) && !IsSeatTaken(bs, m.busnumber, m.seatnumber, Some(id)) ==> SeatsUnique(bs[k := m]))
      && (AllIdsParse(bs) && (u.id.None? || u.id == Some(id)) ==> AllIdsParse(bs[k := m]))
  {
    var k := FindIndexById(bs, id);
    ReplaceKeepsInvariants(bs, k, Merge(bs[k], u));
  }

  /** Splicing one record out keeps every invariant. */
  lemma DeleteKeepsInvariants(bs: seq<Booking>, k: nat)
    requires k < |bs|
    ensures IdsUnique(bs) ==> IdsUnique(bs[..k] + bs[k + 1..])
    ensures SeatsUnique(bs) ==> SeatsUnique(bs[..k] + bs[k + 1..])
    ensures AllIdsParse(bs) ==> AllIdsParse(bs[..k] + bs[k + 1..])
  {
    var rest := bs[..k] + bs[k + 1..];
    assert forall i :: 0 <= i < |rest| ==> rest[i] == bs[if i < k then i else i + 1];
  }

  /** After the splice the id is gone and, without double bookings, the seat is free. */
  lemma DeleteFreesIdAndSeat(bs: seq<Booking>, k: nat)
    requires IdsUnique(bs) && SeatsUnique(bs) && k < |bs|
    ensures FindIndexById(bs[..k] + bs[k + 1..], bs[k].id) == -1
    ensures !IsSeatTaken(bs[..k] + bs[k + 1..], bs[k].busnumber, bs[k].seatnumber, None)
  {
    var rest := bs[..k] + bs[k + 1..];
    assert forall i :: 0 <= i < |rest| ==> rest[i] == bs[if i < k then i else i + 1];
    SelfSeatIsFree(bs, k);
    forall i | 0 <= i < |rest| ensures !Occupies(rest[i], bs[k].busnumber, bs[k].seatnumber, None) {
      var j := if i < k then i else i + 1;
      assert !Occupies(bs[j], bs[k].busnumber, bs[k].seatnumber, Some(bs[k].id));
      assert bs[j].id != bs[k].id;
    }
  }
}
