# Bus booking store: a Dafny model

This project models the data layer of a small bus-booking web application.
That layer is the in-memory booking store of `lib/shared-data.ts`, together
with the create-booking decision of `POST /api/bookings` and the list returned
by `GET /api/bookings` in `app/api/bookings/route.ts`.

- `Booking` is a record with five fields: `id`, `passengername`, `busnumber`,
  `seatnumber` and `createdAt`.
- The store is an array seeded with five bookings. `getBookingById` and
  `getBookingByName` return the first match. `getBookingByName` lower-cases
  both names before comparing.
- `addBooking` pushes a record. Its id is one more than the largest of 0 and
  the ids read by `parseInt`.
- `updateBooking` merges a partial record into the first record with the
  given id. `deleteBooking` splices that record out.
- `isSeatTaken` asks whether some record holds a (bus, seat) pair, optionally
  ignoring one id.
- POST first checks that the three fields are truthy (400 if not). It then
  checks the raw bus and seat with `isSeatTaken` (409 if taken). Otherwise it
  stores the trimmed fields and answers 201 with the new record.

Layout, one module per file:

- `wrappers.dfy` (`Wrappers`): the `Option` type. An absent field or `null`
  is `None`.
- `js_string.dfy` (`JsString`): `trim`, over ECMAScript's full WhiteSpace and
  LineTerminator set, and `toLowerCase`, on ASCII letters.
- `js_number.dfy` (`JsNumber`): `Number.parseInt` without a radix, and
  `toString` on non-negative integers. A NaN is `None`.
- `shared_data.dfy` (`SharedData`): the record types and the seed. The
  queries are pure functions of the array. The class `BookingStore` holds the
  array as a `seq` field, and its methods push, overwrite and splice it. The
  file also holds the lemmas about the invariants "ids are unique" and "no two
  bookings share a (bus, seat) pair". The store enforces neither invariant.
- `bookings_route.dfy` (`BookingsRoute`): POST as the function `PostOutcome`,
  which yields the response and the new array, and as the method `Post`,
  which makes its one write through `BookingStore.AddBooking`. It also holds
  GET, the lemmas about POST, and a corrected POST (see Findings).

The route imports its store operations from `lib/mongodb-helpers`. That file
is not part of this model, so the route is modelled against the
`lib/shared-data.ts` store, whose `isSeatTaken` and `addBooking` it calls by
the same names. The clock reading `new Date().toISOString()` is a parameter
`now`.

The model follows the code as written, including these points, which a reader might expect to work otherwise:

- The presence check does not trim, so `"   "` passes it.
- The conflict check uses the untrimmed values.
- `getBookingByName` returns the first match.
- Nothing in the store stops duplicate seats or ids.

## Model

| member | source | states |
|---|---|---|
| `SharedData.Seed` | lib/shared-data.ts:13-49 | definition of the initial `bookings` array: the five seed records, in order, each stamped `now`; its properties are stated by `SeedIsWellFormed`, `SeedNextId` and `SeedFindsJohnDoe` |
| `SharedData.SeedIsWellFormed` | lib/shared-data.ts:13-49 | the five seed bookings have pairwise distinct ids, pairwise distinct (bus, seat) pairs, and ids that all parse |
| `SharedData.IdsOneToFive` | lib/shared-data.ts:15-43 | ids "1" to "5" parse to the numbers 1 to 5 |
| `SharedData.SeedNextId` | lib/shared-data.ts:13-60 | the first booking added to the seeded store gets id "6" |
| `SharedData.NextIdAfterOneToFive` | lib/shared-data.ts:60 | on any five records with ids "1" to "5", the generated id is "6" |
| `SharedData.BookingStore.constructor` | lib/shared-data.ts:13-49 | the store starts out holding exactly the seed records |
| `SharedData.BookingStore.GetBookings` | lib/shared-data.ts:52 | returns the current array, in order, and changes nothing |
| `SharedData.FindIndexById` | lib/shared-data.ts:71 | `findIndex`: -1 exactly when no record has the id; otherwise the record at the index has the id and no earlier record does |
| `SharedData.GetBookingById` | lib/shared-data.ts:54 | nothing exactly when no record has the id; otherwise a record at some index k has the id and no record before k does |
| `SharedData.GetBookingByName` | lib/shared-data.ts:56-57 | nothing exactly when no lower-cased name equals the lower-cased query; otherwise the first record whose name matches that way |
| `SharedData.GetBookingByNameIgnoresCase` | lib/shared-data.ts:56-57 | searching with a name and with its lower-cased form finds the same booking |
| `SharedData.SeedFindsJohnDoe` | lib/shared-data.ts:16-57 | "john doe" finds the seeded "John Doe" record |
| `SharedData.IsSeatTaken` | lib/shared-data.ts:87-91 | true exactly when some record has that bus and that seat and an id other than the excluded one; an absent exclusion excludes nothing |
| `SharedData.SelfSeatIsFree` | lib/shared-data.ts:87-91 | with no double bookings, a record's own seat is free once its own id is excluded, and taken without the exclusion |
| `SharedData.MaxOrNaN` | lib/shared-data.ts:60 | `Math.max(...ids, 0)`: NaN exactly when some value is NaN; otherwise at least 0, at least every value, and either 0 or one of the values |
| `SharedData.ParsedIds` | lib/shared-data.ts:60 | `Number.parseInt(b.id)` for each record `b`: the same length as the array, and element i is the parse of record i's id |
| `SharedData.NextId` | lib/shared-data.ts:60 | definition of `newId`: `(Math.max(...ids, 0) + 1).toString()`, "NaN" when `Math.max` is NaN; its properties are stated by `NextIdSpec` |
| `SharedData.NextIdSpec` | lib/shared-data.ts:60 | the new id is "1" on an empty array and "NaN" when some id does not parse; otherwise it parses to a value of at least 1 that is one above the largest id (1 when no id is positive), and it equals no existing id |
| `SharedData.NextIdIsNumeral` | lib/shared-data.ts:60 | when every id parses, the new id is exactly `toString` of a positive number, and `parseInt` reads that number back from it |
| `SharedData.BookingStore.AddBooking` | lib/shared-data.ts:59-68 | exactly one record is appended after unchanged earlier records; it carries the input's three fields, the generated id and `now`, and it is returned |
| `SharedData.Created` | lib/shared-data.ts:61-65 | definition of `newBooking`: the input's three fields, the generated id and `now`; its properties are stated by the contract of `BookingStore.AddBooking` |
| `SharedData.AddKeepsIdsUnique` | lib/shared-data.ts:59-68 | when ids are unique and all parse, the push keeps them unique and all parsing |
| `SharedData.AddSeatInvariant` | lib/shared-data.ts:59-91 | after the push the seat is taken; on a store without double bookings, the push keeps it so exactly when the seat was free before |
| `SharedData.AddThenGetById` | lib/shared-data.ts:54-68 | when every id parses, looking up the generated id after the push finds exactly the pushed record |
| `SharedData.BookingStore.UpdateBooking` | lib/shared-data.ts:70-76 | with the id absent: returns null and leaves the array unchanged; otherwise only the first matching index changes, to the old record overridden by the patch's present fields, and that record is returned |
| `SharedData.Merge` | lib/shared-data.ts:74 | definition of `{ ...bookings[index], ...updates }`: each field present in the patch overrides the record's; its properties are stated by `BookingStore.UpdateBooking` and `UpdateKeepsInvariants` |
| `SharedData.ReplaceKeepsInvariants` | lib/shared-data.ts:74 | overwriting one record keeps ids unique if it keeps its id, and keeps seats unique if the new seat is free apart from that id |
| `SharedData.UpdateKeepsInvariants` | lib/shared-data.ts:70-76 | an update keeps ids unique and all parsing if the patch leaves the id alone; it keeps seats unique if the merged seat is free apart from the record itself |
| `SharedData.BookingStore.DeleteBooking` | lib/shared-data.ts:78-85 | with the id absent: returns null and leaves the array unchanged; otherwise returns the first matching record and removes just that index, keeping the others in order |
| `SharedData.DeleteKeepsInvariants` | lib/shared-data.ts:83 | removing one index keeps unique ids, unique seats and parseable ids |
| `SharedData.DeleteFreesIdAndSeat` | lib/shared-data.ts:78-91 | with unique ids and seats, after the splice the id is no longer found and the seat is no longer taken |
| `JsString.Trim` | app/api/bookings/route.ts:44-46 | the result is an infix of the input and has white space only outside it; it is empty exactly when the input is all white space, and otherwise neither starts nor ends with white space; an input without white space at either end is unchanged |
| `JsString.TrimIdempotent` | app/api/bookings/route.ts:44-46 | trimming twice is trimming once |
| `JsString.ToLower` | lib/shared-data.ts:57 | same length as the input; each character is lower-cased on its own |
| `JsString.ToLowerIdempotent` | lib/shared-data.ts:57 | lower-casing twice is lower-casing once |
| `JsNumber.ToDecimal` | lib/shared-data.ts:60 | `toString` writes a non-empty string of decimal digits with no leading zero |
| `JsNumber.DigitRun` | lib/shared-data.ts:60 | the digit prefix `parseInt` reads: all digits, and followed by a non-digit or by the end of the string |
| `JsNumber.ParseInt` | lib/shared-data.ts:60 | definition of `Number.parseInt` with no radix: leading white space is skipped, then `ParseSigned` reads the number; its properties are stated by `ParseIntOfToDecimal` and `NextIdSpec` |
| `JsNumber.ParseSigned` | lib/shared-data.ts:60 | definition: an optional sign, base 16 after "0x"/"0X" and base 10 otherwise, then the longest digit run (`DigitRun`); NaN when the run is empty |
| `JsNumber.ParseIntOfToDecimal` | lib/shared-data.ts:60 | `parseInt` reads back exactly the number that `toString` wrote |
| `BookingsRoute.Present` | app/api/bookings/route.ts:30 | definition of the truthiness test on a body field: absent and "" are falsy, every other string is truthy; its properties are stated by the contract of `PostOutcome` |
| `BookingsRoute.SeatTakenMessage` | app/api/bookings/route.ts:39 | definition of the 409 message `Seat ${seatnumber} is already taken on bus ${busnumber}`; `PostOutcome` answers 409 with it |
| `BookingsRoute.PostOutcome` | app/api/bookings/route.ts:27-49 | 400 exactly when a field is absent or empty; 409 exactly when all are present and the raw bus and seat are taken; both leave the store unchanged and answer with the route's error message (the missing-fields text, or `SeatTakenMessage` on the raw bus and seat); otherwise 201 and one appended record that holds the trimmed fields and is returned |
| `BookingsRoute.Post` | app/api/bookings/route.ts:24-49 | the handler's response and new store are those of `PostOutcome`; the only write is one `AddBooking` |
| `BookingsRoute.Get` | app/api/bookings/route.ts:5-16 | status 200 with the full list, in store order; the store is unchanged |
| `BookingsRoute.MissingFieldWinsOverConflict` | app/api/bookings/route.ts:30-40 | an empty or missing field gets exactly the 400 response with the store unchanged, even when the seat is taken |
| `BookingsRoute.PostKeepsIdsUnique` | app/api/bookings/route.ts:43-47 | POST keeps ids unique and parseable |
| `BookingsRoute.PostKeepsSeatsUniqueOnTrimmedInput` | app/api/bookings/route.ts:38-47 | when the bus and seat have no surrounding white space, POST never creates a double booking |
| `BookingsRoute.BlankFieldStoredEmpty` | app/api/bookings/route.ts:30-46 | with all three fields non-empty and the raw seat free, POST answers 201; each field made only of white space, be it the name, the bus or the seat, is stored as "" |
| `BookingsRoute.RawCheckAdmitsDuplicate` | app/api/bookings/route.ts:38-46 | if the trimmed seat is booked but the raw one is not, POST answers 201 and the store then books the same seat twice |
| `BookingsRoute.PaddedSeatDoubleBooks` | app/api/bookings/route.ts:38-46 | a booked seat `s` requested as " " + `s` on the same bus is booked a second time |
| `BookingsRoute.PostOutcomeChecked` | app/api/bookings/route.ts:30-47 | the corrected POST: it answers 400, 409 or 201, leaves the store unchanged unless 201, and on 201 appends one record and returns it; what it decides is stated by `CheckedDecidesOnTrimmedValues` |
| `BookingsRoute.PostChecked` | app/api/bookings/route.ts:24-49 | a handler whose response and new store are those of `PostOutcomeChecked` |
| `BookingsRoute.CheckedKeepsSeatsUnique` | app/api/bookings/route.ts:38-47 | the corrected POST never creates a double booking |
| `BookingsRoute.CheckedStoresNonBlank` | app/api/bookings/route.ts:30-46 | the corrected POST answers 400 exactly when a field is absent or blank after trimming; every field it stores is non-empty and has no surrounding white space |
| `BookingsRoute.CheckedDecidesOnTrimmedValues` | app/api/bookings/route.ts:30-47 | the corrected POST answers 409 exactly when every trimmed field is present and the trimmed bus and seat are taken; on 201 the stored record is the next id, the three trimmed fields and `now` |
| `BookingsRoute.CheckedAgreesOnTrimmedInput` | app/api/bookings/route.ts:30-49 | on fields without surrounding white space, the corrected POST behaves exactly like POST as written |

## Findings

| source | as written | input that shows it | evidently intended | confidence | as-written member | corrected member |
|---|---|---|---|---|---|---|
| app/api/bookings/route.ts:38-46 | `isSeatTaken` is asked about the raw `busnumber`/`seatnumber`, but `addBooking` stores their trimmed forms | the store holds seat `A1` on `BUS001`; a POST with `{passengername: "Ann Lee", busnumber: "BUS001", seatnumber: " A1"}` passes the check, gets 201, and `A1` on `BUS001` is then booked twice | test the values that will be stored, so no seat is booked twice (`CheckedDecidesOnTrimmedValues`, `CheckedKeepsSeatsUnique`) | not executed; high | `BookingsRoute.RawCheckAdmitsDuplicate` | `BookingsRoute.PostOutcomeChecked` |
| app/api/bookings/route.ts:30-46 | the presence check is a truthiness test on the untrimmed strings | a POST with `{passengername: "   ", busnumber: "BUS009", seatnumber: "Z9"}` on a free seat gets 201 and stores the name `""` | reject a field that is blank after trimming, with "All fields are required" (`CheckedStoresNonBlank`) | not executed; medium | `BookingsRoute.BlankFieldStoredEmpty` | `BookingsRoute.PostOutcomeChecked` |

`Post` models the route as written. `PostOutcomeChecked` and `PostChecked`
trim first, then make both checks on the trimmed values. On input without
surrounding white space they agree with the route (`CheckedAgreesOnTrimmedInput`).

## Left out

- `lib/mongodb-helpers` is not part of this model. The route's store calls are modelled by the `lib/shared-data.ts` store.
- The React pages, the navigation component and the axios client are out of scope. They are UI and HTTP-client code.
- The other API routes (by id, by name, `updatePassenger`, `deletePassenger`) are not modelled. Besides calling the store, they add checks of their own: presence checks, an ObjectId format check (400), an existence check (404), and in `updatePassenger` a conflict check that excludes the record's own id (409).
- async/await, `NextResponse` JSON framing and headers, and `console.log` are not modelled.
- The `catch` blocks that answer 500 are not modelled. That includes a body that is not JSON. It also includes a field that is truthy but not a string (a number, say), whose `.trim()` throws. Body fields are modelled as absent-or-string; `null` counts as absent.
- `new Date().toISOString()` is the parameter `now`. The seed's five clock readings are one value.
- `toLowerCase` is modelled on ASCII letters only. JavaScript also lower-cases other Unicode letters.
- JavaScript numbers are doubles. `parseInt` loses precision above 2^53, and `toString` switches to exponent notation from 10^21. `ParsedIds`, `MaxOrNaN` and `ToDecimal` use unbounded integers.
- `Merge`: a patch key given explicitly as `undefined` overrides the field with `undefined` in JavaScript. The model treats such a key as absent.
- `AddBooking`: extra properties of the argument, which `...booking` would copy, are not modelled.
- `getBookings` returns the live array, so the caller can alias it. `GetBookings` returns a value.
- The check-then-act race between `isSeatTaken` and `addBooking` under concurrent requests is not modelled. Requests are sequential here.
