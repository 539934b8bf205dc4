/** The collection route app/api/bookings/route.ts: GET returns every booking
    and POST creates one. The route imports its store operations from
    lib/mongodb-helpers, which is not part of this model; they are modelled
    here by the lib/shared-data.ts store (SharedData), whose isSeatTaken and
    addBooking are assumed to have the same contracts. */
module BookingsRoute {
  import opened Wrappers
  import opened JsString
  import opened SharedData

  /** A JSON response body. */
  datatype Body = Error(message: string) | One(booking: Booking) | Many(bookings: seq<Booking>)

  datatype Response = Response(status: int, body: Body)

  /** A response together with the store contents after the request. */
  datatype Outcome = Outcome(response: Response, store: seq<Booking>)

  const MissingFieldsMessage := "All fields are required: passengername, busnumber, seatnumber"

  function SeatTakenMessage(busnumber: string, seatnumber: string): string {
    "Seat " + seatnumber + " is already taken on bus " + busnumber
  }

  /** JavaScript truthiness of a body field that is absent or a string:
      the empty string is falsy, every other string (even "  ") is truthy. */
  predicate Present(v: Option<string>) {
    v.Some? && v.value != ""
  }

  // ---------------------------------------------------------------------------
  // POST as written

  /** POST /api/bookings: a presence test on the raw fields (400), then a seat
      test on the raw bus and seat (409), then addBooking with the trimmed
      fields (201). */
  function PostOutcome(
    bs: seq<Booking>, passengername: Option<string>, busnumber: Option<string>, seatnumber: Option<string>,
    now: string): (o: Outcome)
    ensures o.response.status in {400, 409, 201}
    ensures o.response.status == 400 <==> !(Present(passengername) && Present(busnumber) && Present(seatnumber))
    ensures o.response.status == 409 <==>
      Present(passengername) && Present(busnumber) && Present(seatnumber)
      && IsSeatTaken(bs, busnumber.value, seatnumber.value, None)
    ensures o.response.status != 201 ==> o.store == bs && o.response.body.Error?
    ensures o.response.status == 400 ==> o.response.body == Error(MissingFieldsMessage)
    ensures o.response.status == 409 ==>
      o.response.body == Error(SeatTakenMessage(busnumber.value, seatnumber.value))
    ensures o.response.status == 201 ==>
      && |o.store| == |bs| + 1 && o.store[..|bs|] == bs
      && o.response.body == One(o.store[|bs|])
      && o.store[|bs|] == Booking(NextId(bs), Trim(passengername.value), Trim(busnumber.value),
                                  Trim(seatnumber.value), now)
  {
    if !Present(passengername) || !Present(busnumber) || !Present(seatnumber) then
      Outcome(Response(400, Error(MissingFieldsMessage)), bs)
    else if IsSeatTaken(bs, busnumber.value, seatnumber.value, None) then
      Outcome(Response(409, Error(SeatTakenMessage(busnumber.value, seatnumber.value))), bs)
    else
      var b := Created(bs, BookingInput(Trim(passengername.value), Trim(busnumber.value), Trim(seatnumber.value)), now);
      assert (bs + [b])[..|bs|] == bs;
      Outcome(Response(201, One(b)), bs + [b])
  }

  /** The POST handler: the checks, then the one store write through addBooking. */
  method Post(
    store: BookingStore, passengername: Option<string>, busnumber: Option<string>, seatnumber: Option<string>,
    now: string) returns (response: Response)
    modifies store
    ensures Outcome(response, store.bookings) == PostOutcome(old(store.bookings), passengername, busnumber, seatnumber, now)
  {
    if !Present(passengername) || !Present(busnumber) || !Present(seatnumber) {
      return Response(400, Error(MissingFieldsMessage));
    }
    if IsSeatTaken(store.bookings, busnumber.value, seatnumber.value, None) {
      return Response(409, Error(SeatTakenMessage(busnumber.value, seatnumber.value)));
    }
    var newBooking := store.AddBooking(
      BookingInput(Trim(passengername.value), Trim(busnumber.value), Trim(seatnumber.value)), now);
    response := Response(201, One(newBooking));
  }

  /** GET /api/bookings: every booking, in store order, with status 200; nothing changes. */
  method Get(store: BookingStore) returns (response: Response)
    ensures response == Response(200, Many(store.bookings))
  {
    var bookings := store.GetBookings();
    response := Response(200, Many(bookings));
  }

  // ---------------------------------------------------------------------------
  // Properties of POST as written

  /** A missing or empty field is rejected with 400 even when the seat is also
      taken: the presence test comes first. */
  lemma MissingFieldWinsOverConflict(
    bs: seq<Booking>, passengername: Option<string>, busnumber: Option<string>, seatnumber: Option<string>,
    now: string)
    requires !Present(passengername) || !Present(busnumber) || !Present(seatnumber)
    ensures PostOutcome(bs, passengername, busnumber, seatnumber, now)
            == Outcome(Response(400, Error(MissingFieldsMessage)), bs)
  {
  }

  /** POST keeps ids unique and parseable. */
  lemma PostKeepsIdsUnique(
    bs: seq<Booking>, passengername: Option<string>, busnumber: Option<string>, seatnumber: Option<string>,
    now: string)
    requires IdsUnique(bs) && AllIdsParse(bs)
    ensures var o := PostOutcome(bs, passengername, busnumber, seatnumber, now);
      IdsUnique(o.store) && AllIdsParse(o.store)
  {
    if Present(passengername) && Present(busnumber) && Present(seatnumber) {
      AddKeepsIdsUnique(bs, BookingInput(Trim(passengername.value), Trim(busnumber.value), Trim(seatnumber.value)), now);
    }
  }

  /** When the bus and seat carry no surrounding white space, POST never
      creates a double booking. */
  lemma PostKeepsSeatsUniqueOnTrimmedInput(
    bs: seq<Booking>, passengername: Option<string>, busnumber: Option<string>, seatnumber: Option<string>,
    now: string)
    requires SeatsUnique(bs)
    requires busnumber.Some? ==> Trim(busnumber.value) == busnumber.value
    requires seatnumber.Some? ==> Trim(seatnumber.value) == seatnumber.value
    ensures SeatsUnique(PostOutcome(bs, passengername, busnumber, seatnumber, now).store)
  {
    if Present(passengername) && Present(busnumber) && Present(seatnumber) {
      AddSeatInvariant(bs, BookingInput(Trim(passengername.value), busnumber.value, seatnumber.value), now);
    }
  }

  /** A non-empty field made only of white space passes the presence test,
      and its trimmed form, "", is what is stored; this holds for each of the
      three fields. */
  lemma BlankFieldStoredEmpty(
    bs: seq<Booking>, passengername: string, busnumber: string, seatnumber: string, now: string)
    requires passengername != "" && busnumber != "" && seatnumber != ""
    requires !IsSeatTaken(bs, busnumber, seatnumber, None)
    ensures var o := PostOutcome(bs, Some(passengername), Some(busnumber), Some(seatnumber), now);
      && o.response.status == 201
      && ((forall k :: 0 <= k < |passengername| ==> IsWhiteSpace(passengername[k]))
          ==> o.store[|bs|].passengername == "")
      && ((forall k :: 0 <= k < |busnumber| ==> IsWhiteSpace(busnumber[k]))
          ==> o.store[|bs|].busnumber == "")
      && ((forall k :: 0 <= k < |seatnumber| ==> IsWhiteSpace(seatnumber[k]))
          ==> o.store[|bs|].seatnumber == "")
  {
  }

  /** The conflict test looks up the raw seat, the insert stores the trimmed
      one: a seat written with surrounding white space gets past the test and
      books an occupied seat a second time. */
  lemma RawCheckAdmitsDuplicate(
    bs: seq<Booking>, k: nat, passengername: string, busnumber: string, seatnumber: string, now: string)
    requires k < |bs| && bs[k].busnumber == busnumber && bs[k].seatnumber == Trim(seatnumber)
    requires passengername != "" && busnumber != "" && seatnumber != "" && Trim(busnumber) == busnumber
    requires !IsSeatTaken(bs, busnumber, seatnumber, None)
    ensures var o := PostOutcome(bs, Some(passengername), Some(busnumber), Some(seatnumber), now);
      o.response.status == 201 && !SeatsUnique(o.store)
  {
    var o := PostOutcome(bs, Some(passengername), Some(busnumber), Some(seatnumber), now);
    assert o.store[k] == bs[k];
    assert o.store[k].busnumber == o.store[|bs|].busnumber && o.store[k].seatnumber == o.store[|bs|].seatnumber;
  }

  /** The case of one leading space: with seat `s` of a bus booked, a request
      for " " + `s` on that bus (" A1" for "A1" on BUS001, say) is accepted
      and `s` is booked twice, unless " " + `s` was itself booked. */
  lemma PaddedSeatDoubleBooks(bs: seq<Booking>, k: nat, passengername: string, now: string)
    requires k < |bs| && passengername != ""
    requires bs[k].busnumber != "" && Trim(bs[k].busnumber) == bs[k].busnumber
    requires bs[k].seatnumber != "" && !IsWhiteSpace(bs[k].seatnumber[0])
    requires !IsWhiteSpace(bs[k].seatnumber[|bs[k].seatnumber| - 1])
    requires !IsSeatTaken(bs, bs[k].busnumber, " " + bs[k].seatnumber, None)
    ensures var o := PostOutcome(bs, Some(passengername), Some(bs[k].busnumber), Some(" " + bs[k].seatnumber), now);
      o.response.status == 201 && !SeatsUnique(o.store)
  {
    var seat := bs[k].seatnumber;
    assert Trim(" " + seat) == seat by {
      assert (" " + seat)[1..] == seat;
      assert TrimStart(" " + seat) == seat;
    }
    RawCheckAdmitsDuplicate(bs, k, passengername, bs[k].busnumber, " " + seat, now);
  }

  // ---------------------------------------------------------------------------
  // POST with the checks made on the values it stores

  /** The trimmed value of a field, when present. */
  function Trimmed(v: Option<string>): Option<string> {
    if v.Some? then Some(Trim(v.value)) else None
  }

  /** POST as evidently intended: trim first, then require every trimmed field
      to be non-empty (400) and the trimmed seat to be free (409), then store
      the trimmed fields (201). */
  function PostOutcomeChecked(
    bs: seq<Booking>, passengername: Option<string>, busnumber: Option<string>, seatnumber: Option<string>,
    now: string): (o: Outcome)
    ensures o.response.status in {400, 409, 201}
    ensures o.response.status != 201 ==> o.store == bs
    ensures o.response.status == 201 ==>
      && |o.store| == |bs| + 1 && o.store[..|bs|] == bs
      && o.response.body == One(o.store[|bs|])
  {
    PostOutcome(bs, Trimmed(passengername), Trimmed(busnumber), Trimmed(seatnumber), now)
  }

  /** The POST handler with the corrected checks. */
  method PostChecked(
    store: BookingStore, passengername: Option<string>, busnumber: Option<string>, seatnumber: Option<string>,
    now: string) returns (response: Response)
    modifies store
    ensures Outcome(response, store.bookings)
            == PostOutcomeChecked(old(store.bookings), passengername, busnumber, seatnumber, now)
  {
    response := Post(store, Trimmed(passengername), Trimmed(busnumber), Trimmed(seatnumber), now);
  }

  /** The corrected POST never creates a double booking. */
  lemma CheckedKeepsSeatsUnique(
    bs: seq<Booking>, passengername: Option<string>, busnumber: Option<string>, seatnumber: Option<string>,
    now: string)
    requires SeatsUnique(bs)
    ensures SeatsUnique(PostOutcomeChecked(bs, passengername, busnumber, seatnumber, now).store)
  {
    if busnumber.Some? { TrimIdempotent(busnumber.value); }
    if seatnumber.Some? { TrimIdempotent(seatnumber.value); }
    PostKeepsSeatsUniqueOnTrimmedInput(bs, Trimmed(passengername), Trimmed(busnumber), Trimmed(seatnumber), now);
  }

  /** The corrected POST rejects a white-space-only field with 400, and every
      field it stores is non-empty and has no surrounding white space. */
  lemma CheckedStoresNonBlank(
    bs: seq<Booking>, passengername: Option<string>, busnumber: Option<string>, seatnumber: Option<string>,
    now: string)
    ensures var o := PostOutcomeChecked(bs, passengername, busnumber, seatnumber, now);
      o.response.status == 400 <==> !(Present(Trimmed(passengername)) && Present(Trimmed(busnumber)) && Present(Trimmed(seatnumber)))
    ensures var o := PostOutcomeChecked(bs, passengername, busnumber, seatnumber, now);
      o.response.status == 201 ==>
        var b := o.store[|bs|];
        && b.passengername != "" && Trim(b.passengername) == b.passengername
        && b.busnumber != "" && Trim(b.busnumber) == b.busnumber
        && b.seatnumber != "" && Trim(b.seatnumber) == b.seatnumber
  {
    if passengername.Some? { TrimIdempotent(passengername.value); }
    if busnumber.Some? { TrimIdempotent(busnumber.value); }
    if seatnumber.Some? { TrimIdempotent(seatnumber.value); }
  }

  /** What the corrected POST decides: 409 exactly when every trimmed field is
      present and the trimmed bus and seat are taken, and on 201 the record
      stored is the one built from the trimmed fields. */
  lemma CheckedDecidesOnTrimmedValues(
    bs: seq<Booking>, passengername: Option<string>, busnumber: Option<string>, seatnumber: Option<string>,
    now: string)
    ensures var o := PostOutcomeChecked(bs, passengername, busnumber, seatnumber, now);
      o.response.status == 409 <==>
        && Present(Trimmed(passengername)) && Present(Trimmed(busnumber)) && Present(Trimmed(seatnumber))
        && IsSeatTaken(bs, Trim(busnumber.value), Trim(seatnumber.value), None)
    ensures var o := PostOutcomeChecked(bs, passengername, busnumber, seatnumber, now);
      o.response.status == 201 ==>
        && passengername.Some? && busnumber.Some? && seatnumber.Some?
        && o.store[|bs|]
           == Booking(NextId(bs), Trim(passengername.value), Trim(busnumber.value), Trim(seatnumber.value), now)
  {
    if passengername.Some? { TrimIdempotent(passengername.value); }
    if busnumber.Some? { TrimIdempotent(busnumber.value); }
    if seatnumber.Some? { TrimIdempotent(seatnumber.value); }
  }

  /** On fields without surrounding white space the corrected POST and POST
      as written agree. */
  lemma CheckedAgreesOnTrimmedInput(
    bs: seq<Booking>, passengername: Option<string>, busnumber: Option<string>, seatnumber: Option<string>,
    now: string)
    requires Trimmed(passengername) == passengername && Trimmed(busnumber) == busnumber
    requires Trimmed(seatnumber) == seatnumber
    ensures PostOutcomeChecked(bs, passengername, busnumber, seatnumber, now)
            == PostOutcome(bs, passengername, busnumber, seatnumber, now)
  {
  }
}
