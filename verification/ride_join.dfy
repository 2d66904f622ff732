/** `RideRequestService.joinRideRequest` and the passenger search
    `getAllRideRequests`: a passenger books seats on a segment of an offered
    ride, and a search lists the future offers a passenger could take. */
module RideJoin {
  import opened Wrappers
  import opened JavaText
  import opened Seqs
  import opened Entities
  import opened RouteMatching
  import opened Notifications

  /** The join request body: `pickupPoint`, `dropoffPoint`, `price` and an optional
      `numberOfSeats` (absent, null or not a number all mean one seat; a whole
      number keeps only its low 32 bits). */
  datatype JoinDetails = JoinDetails(
    pickupPoint: JString,
    dropoffPoint: JString,
    price: Option<real>,
    numberOfSeats: Option<int>)

  /** Why a join is refused, in the order the checks run. `MissingPrice` is the
      failure raised when an absent price is unboxed. */
  datatype JoinError =
    | NoSuchRide
    | NoSuchEmployee
    | MissingPrice
    | InvalidArguments
    | OffRoute(reason: SegmentError)
    | NotOffered
    | FemaleOnly
    | NotEnoughSeats(left: int)
    | OwnRide
    | AlreadyJoined

  datatype JoinOutcome = JoinOutcome(rides: seq<Ride>, notifications: seq<Notification>, booking: Participant)

  /** The seats asked for: one when absent, otherwise the number cut to a Java `int`. */
  function SeatsRequested(d: JoinDetails): int {
    match d.numberOfSeats
    case None => 1
    case Some(n) => IntValue(n)
  }

  /** Seats still free on a ride; negative when it is overbooked. */
  function SeatsLeft(ride: Ride): int {
    ride.vehicleCapacity - BookedSeats(ride.participants)
  }

  /** A female-only ride refuses anyone whose gender is not FEMALE (ignoring case),
      including an employee with no gender recorded. */
  predicate FemaleOnlyBlocks(ride: Ride, e: Employee) {
    EqualsIgnoreCase("FEMALE_ONLY", ride.genderPreference) && !EqualsIgnoreCase("FEMALE", e.gender)
  }

  /** `rideParticipantRepository.existsByRideRequestAndParticipant`. */
  predicate HasJoined(ride: Ride, employeeId: int) {
    exists i :: 0 <= i < |ride.participants| && ride.participants[i].participant.id == employeeId
  }

  /** "1 seat" or "<n> seats". */
  function SeatText(seats: int): string {
    if seats > 1 then LongToString(seats) + " seats" else "1 seat"
  }

  /** The pickup → drop-off part of both messages, from the texts the passenger typed. */
  function SegmentText(d: JoinDetails): string {
    ExtractMainCity(d.pickupPoint) + " -> " + ExtractMainCity(d.dropoffPoint) + ")"
  }

  function DriverMessage(e: Employee, ride: Ride, d: JoinDetails): string {
    Show(e.name) + " booked " + SeatText(SeatsRequested(d)) + " on your ride: " +
    Show(ride.originCity) + " -> " + Show(ride.destinationCity) + " (Segment: " + SegmentText(d)
  }

  function PassengerMessage(ride: Ride, d: JoinDetails): string {
    "Booking confirmed for " + SeatText(SeatsRequested(d)) + ": " +
    Show(ride.originCity) + " -> " + Show(ride.destinationCity) + " (Your segment: " + SegmentText(d)
  }

  /** The checks `joinRideRequest` makes once the ride and the employee are found,
      in source order; on success, the matched pickup and drop-off path indices. */
  function CheckJoin(ride: Ride, e: Employee, d: JoinDetails): (r: Result<(nat, nat), JoinError>)
    ensures r.Success? <==>
      && d.price.Some?
      && !IsNullOrBlank(d.pickupPoint) && !IsNullOrBlank(d.dropoffPoint) && SeatsRequested(d) >= 1
      && ResolveSegment(BuildFullPath(ride), d.pickupPoint, d.dropoffPoint).Success?
      && EqualsIgnoreCase("OFFERED", Some(ride.rideType))
      && !FemaleOnlyBlocks(ride, e)
      && SeatsRequested(d) <= SeatsLeft(ride)
      && ride.requester.id != e.id
      && !HasJoined(ride, e.id)
    ensures r.Success? ==> r.value == ResolveSegment(BuildFullPath(ride), d.pickupPoint, d.dropoffPoint).value
    ensures r.Failure? && r.error.NotEnoughSeats? ==> r.error.left == SeatsLeft(ride) < SeatsRequested(d)
  {
    var seats := SeatsRequested(d);
    if d.price.None? then Failure(MissingPrice)
    else if IsNullOrBlank(d.pickupPoint) || IsNullOrBlank(d.dropoffPoint) || seats < 1 then Failure(InvalidArguments)
    else
      match ResolveSegment(BuildFullPath(ride), d.pickupPoint, d.dropoffPoint)
      case Failure(why) => Failure(OffRoute(why))
      case Success(pq) =>
        if !EqualsIgnoreCase("OFFERED", Some(ride.rideType)) then Failure(NotOffered)
        else if FemaleOnlyBlocks(ride, e) then Failure(FemaleOnly)
        else if SeatsLeft(ride) < seats then Failure(NotEnoughSeats(SeatsLeft(ride)))
        else if ride.requester.id == e.id then Failure(OwnRide)
        else if HasJoined(ride, e.id) then Failure(AlreadyJoined)
        else Success(pq)
  }

  /** The effect of an accepted join: the booking is appended to ride `k` only, and
      two notifications are appended — RIDE_JOINED to the driver, then RIDE_BOOKED
      to the passenger. */
  function Book(rides: seq<Ride>, k: nat, e: Employee, d: JoinDetails, p: nat, q: nat,
                notifications: seq<Notification>, rideId: int, now: int): (r: JoinOutcome)
    requires k < |rides| && p < q < |BuildFullPath(rides[k])| && d.price.Some?
    ensures var path := BuildFullPath(rides[k]);
      r.booking == Participant(e, path[p].point, path[q].point, d.price.value, Some(SeatsRequested(d)))
    ensures |r.rides| == |rides| && r.rides[k] == rides[k].(participants := rides[k].participants + [r.booking])
    ensures forall j :: 0 <= j < |rides| && j != k ==> r.rides[j] == rides[j]
    ensures |r.notifications| == |notifications| + 2 && r.notifications[..|notifications|] == notifications
    ensures r.notifications[|notifications|].userId == rides[k].requester.id
    ensures r.notifications[|notifications|].kind == "RIDE_JOINED"
    ensures r.notifications[|notifications| + 1].userId == e.id
    ensures r.notifications[|notifications| + 1].kind == "RIDE_BOOKED"
    ensures forall i :: |notifications| <= i < |r.notifications| ==>
      && r.notifications[i].link == RideLink(rideId)
      && r.notifications[i].rideId == Some(rideId)
      && !r.notifications[i].isRead
  {
    var ride := rides[k];
    var path := BuildFullPath(ride);
    var booking := Participant(e, path[p].point, path[q].point, d.price.value, Some(SeatsRequested(d)));
    var link := RideLink(rideId);
    var toDriver := CreateNotification(notifications, ride.requester.id, DriverMessage(e, ride, d),
                                       link, "RIDE_JOINED", Some(rideId), now);
    var toPassenger := CreateNotification(toDriver, e.id, PassengerMessage(ride, d),
                                          link, "RIDE_BOOKED", Some(rideId), now);
    JoinOutcome(rides[k := ride.(participants := ride.participants + [booking])], toPassenger, booking)
  }

  /** `joinRideRequest`: find the ride, then the passenger by e-mail, then check
      and book. */
  function JoinRide(rides: seq<Ride>, employees: seq<Employee>, notifications: seq<Notification>,
                    rideId: int, email: string, d: JoinDetails, now: int): (r: Result<JoinOutcome, JoinError>)
    ensures FindRide(rides, rideId).None? ==> r == Failure(NoSuchRide)
    ensures FindRide(rides, rideId).Some? && FindEmployeeByEmail(employees, email).None? ==> r == Failure(NoSuchEmployee)
    ensures FindRide(rides, rideId).Some? && FindEmployeeByEmail(employees, email).Some? ==>
      var ride := rides[FindRide(rides, rideId).value];
      var e := employees[FindEmployeeByEmail(employees, email).value];
      && (r.Success? <==> CheckJoin(ride, e, d).Success?)
      && (r.Failure? ==> r.error == CheckJoin(ride, e, d).error)
    ensures r.Success? ==>
      FindRide(rides, rideId).Some? && FindEmployeeByEmail(employees, email).Some? &&
      var k := FindRide(rides, rideId).value;
      var e := employees[FindEmployeeByEmail(employees, email).value];
      CheckJoin(rides[k], e, d).Success? &&
      var (p, q) := CheckJoin(rides[k], e, d).value;
      r.value == Book(rides, k, e, d, p, q, notifications, rideId, now)
  {
    match FindRide(rides, rideId)
    case None => Failure(NoSuchRide)
    case Some(k) =>
      match FindEmployeeByEmail(employees, email)
      case None => Failure(NoSuchEmployee)
      case Some(ei) =>
        var e := employees[ei];
        match CheckJoin(rides[k], e, d)
        case Failure(why) => Failure(why)
        case Success((p, q)) => Success(Book(rides, k, e, d, p, q, notifications, rideId, now))
  }

  // ---------------------------------------------------------------- join lemmas

  /** An accepted join never overbooks: afterwards the ride's booked seats are within
      its capacity, whatever state it was in before. */
  lemma JoinNeverOverbooks(rides: seq<Ride>, employees: seq<Employee>, notifications: seq<Notification>,
                           rideId: int, email: string, d: JoinDetails, now: int)
    requires JoinRide(rides, employees, notifications, rideId, email, d, now).Success?
    ensures var out := JoinRide(rides, employees, notifications, rideId, email, d, now).value;
      var k := FindRide(rides, rideId).value;
      && BookedSeats(out.rides[k].participants) == BookedSeats(rides[k].participants) + SeatsRequested(d)
      && BookedSeats(out.rides[k].participants) <= out.rides[k].vehicleCapacity
  {
    var out := JoinRide(rides, employees, notifications, rideId, email, d, now).value;
    var k := FindRide(rides, rideId).value;
    var e := employees[FindEmployeeByEmail(employees, email).value];
    assert CheckJoin(rides[k], e, d).Success?;
    BookedSeatsAppend(rides[k].participants, out.booking);
  }

  /** The ride keeps its id when a booking is added, so the same ride is found again. */
  lemma FindRideAfterBooking(rides: seq<Ride>, k: nat, ride': Ride, rideId: int)
    requires k < |rides| && FindRide(rides, rideId) == Some(k) && ride'.id == rides[k].id
    ensures FindRide(rides[k := ride'], rideId) == Some(k)
  {
    var after := rides[k := ride'];
    assert after[k].id == rideId;
    assert forall j :: 0 <= j < k ==> after[j] == rides[j];
  }

  /** The same passenger cannot book the same ride twice: once a join succeeds,
      any further join of that ride by that e-mail is refused. */
  lemma JoinTwiceRefused(rides: seq<Ride>, employees: seq<Employee>, notifications: seq<Notification>,
                         rideId: int, email: string, d: JoinDetails, now: int,
                         notifications': seq<Notification>, d': JoinDetails, later: int)
    requires JoinRide(rides, employees, notifications, rideId, email, d, now).Success?
    ensures var out := JoinRide(rides, employees, notifications, rideId, email, d, now).value;
      JoinRide(out.rides, employees, notifications', rideId, email, d', later).Failure?
  {
    var out := JoinRide(rides, employees, notifications, rideId, email, d, now).value;
    var k := FindRide(rides, rideId).value;
    var e := employees[FindEmployeeByEmail(employees, email).value];
    assert CheckJoin(rides[k], e, d).Success?;
    FindRideAfterBooking(rides, k, out.rides[k], rideId);
    assert out.rides == rides[k := out.rides[k]];
    var booked := out.rides[k].participants;
    assert booked[|booked| - 1].participant.id == e.id;
    assert HasJoined(out.rides[k], e.id);
  }

  // ---------------------------------------------------------------- search

  /** The first stage of the search: exactly "OFFERED" (case matters here) and
      departing after `now`. */
  function UpcomingOffer(now: int): Ride -> bool {
    (ride: Ride) => ride.rideType == "OFFERED" && ride.travelDateTime > now
  }

  /** The second stage. `searchDay` is the parsed search date — None when the date
      text is absent, blank or unparseable, which disables the date test — and
      `dayOf` gives the calendar date of an instant. The seat test applies only to a
      positive passenger count, the route test only when both texts are non-blank. */
  function SearchMatch(dayOf: int -> int, searchDay: Option<int>, origin: JString, destination: JString,
                       passengers: Option<int>): Ride -> bool {
    (ride: Ride) =>
      && (searchDay.Some? ==> dayOf(ride.travelDateTime) == searchDay.value)
      && (passengers.Some? && passengers.value > 0 ==> SeatsLeft(ride) >= passengers.value)
      && (!IsNullOrBlank(origin) && !IsNullOrBlank(destination) ==>
            CanAccommodateJourney(BuildFullPath(ride), origin, destination))
  }

  /** Whether a ride is shown for a search, written as one predicate. */
  predicate Listed(ride: Ride, now: int, dayOf: int -> int, searchDay: Option<int>,
                   origin: JString, destination: JString, passengers: Option<int>) {
    && ride.rideType == "OFFERED"
    && ride.travelDateTime > now
    && (searchDay.Some? ==> dayOf(ride.travelDateTime) == searchDay.value)
    && (passengers.Some? && passengers.value > 0 ==> ride.vehicleCapacity - BookedSeats(ride.participants) >= passengers.value)
    && (!IsNullOrBlank(origin) && !IsNullOrBlank(destination) ==>
          exists i, j :: 0 <= i < j < |BuildFullPath(ride)| &&
            MatchesLocation(BuildFullPath(ride)[i], origin) && MatchesLocation(BuildFullPath(ride)[j], destination))
  }

  function ListedBy(now: int, dayOf: int -> int, searchDay: Option<int>,
                    origin: JString, destination: JString, passengers: Option<int>): Ride -> bool {
    (ride: Ride) => Listed(ride, now, dayOf, searchDay, origin, destination, passengers)
  }

  /** `getAllRideRequests`: the two filter stages in sequence, keeping store order. */
  function SearchRides(rides: seq<Ride>, now: int, dayOf: int -> int, searchDay: Option<int>,
                       origin: JString, destination: JString, passengers: Option<int>): (r: seq<Ride>)
    ensures |r| <= |rides|
  {
    Filter(Filter(rides, UpcomingOffer(now)), SearchMatch(dayOf, searchDay, origin, destination, passengers))
  }

  /** The two stages accept a ride exactly when `Listed` holds. */
  lemma StagesAreListed(ride: Ride, now: int, dayOf: int -> int, searchDay: Option<int>,
                        origin: JString, destination: JString, passengers: Option<int>)
    ensures UpcomingOffer(now)(ride) && SearchMatch(dayOf, searchDay, origin, destination, passengers)(ride)
      <==> Listed(ride, now, dayOf, searchDay, origin, destination, passengers)
  {
    var path := BuildFullPath(ride);
    JourneyIff(path, origin, destination);
    assert SearchMatch(dayOf, searchDay, origin, destination, passengers)(ride) <==>
      && (searchDay.Some? ==> dayOf(ride.travelDateTime) == searchDay.value)
      && (passengers.Some? && passengers.value > 0 ==> SeatsLeft(ride) >= passengers.value)
      && (!IsNullOrBlank(origin) && !IsNullOrBlank(destination) ==> CanAccommodateJourney(path, origin, destination));
  }

  /** The search returns exactly the listed rides of the store. */
  lemma SearchIsListed(rides: seq<Ride>, now: int, dayOf: int -> int, searchDay: Option<int>,
                       origin: JString, destination: JString, passengers: Option<int>)
    ensures SearchRides(rides, now, dayOf, searchDay, origin, destination, passengers)
      == Filter(rides, ListedBy(now, dayOf, searchDay, origin, destination, passengers))
    ensures var r := SearchRides(rides, now, dayOf, searchDay, origin, destination, passengers);
      && (forall i :: 0 <= i < |r| ==> r[i] in rides && Listed(r[i], now, dayOf, searchDay, origin, destination, passengers))
      && (forall i :: 0 <= i < |rides| && Listed(rides[i], now, dayOf, searchDay, origin, destination, passengers) ==> rides[i] in r)
  {
    var upcoming := Filter(rides, UpcomingOffer(now));
    var r := SearchRides(rides, now, dayOf, searchDay, origin, destination, passengers);
    var listed := ListedBy(now, dayOf, searchDay, origin, destination, passengers);
    forall i | 0 <= i < |rides|
      ensures listed(rides[i]) == (UpcomingOffer(now)(rides[i]) &&
                                   SearchMatch(dayOf, searchDay, origin, destination, passengers)(rides[i]))
    {
      StagesAreListed(rides[i], now, dayOf, searchDay, origin, destination, passengers);
    }
    FilterTwice(rides, UpcomingOffer(now), SearchMatch(dayOf, searchDay, origin, destination, passengers), listed);
    forall i | 0 <= i < |r|
      ensures r[i] in rides && Listed(r[i], now, dayOf, searchDay, origin, destination, passengers)
    {
      assert r[i] in upcoming;
      StagesAreListed(r[i], now, dayOf, searchDay, origin, destination, passengers);
    }
    forall i | 0 <= i < |rides| && Listed(rides[i], now, dayOf, searchDay, origin, destination, passengers)
      ensures rides[i] in r
    {
      StagesAreListed(rides[i], now, dayOf, searchDay, origin, destination, passengers);
      assert rides[i] in upcoming;
      var j :| 0 <= j < |upcoming| && upcoming[j] == rides[i];
    }
  }

  /** The search keeps store order and lists each listed ride once per stored copy. */
  lemma SearchInStoreOrder(rides: seq<Ride>, now: int, dayOf: int -> int, searchDay: Option<int>,
                           origin: JString, destination: JString, passengers: Option<int>) returns (idx: seq<nat>)
    ensures Selects(rides, ListedBy(now, dayOf, searchDay, origin, destination, passengers),
                    SearchRides(rides, now, dayOf, searchDay, origin, destination, passengers), idx)
  {
    SearchIsListed(rides, now, dayOf, searchDay, origin, destination, passengers);
    idx := FilterSelects(rides, ListedBy(now, dayOf, searchDay, origin, destination, passengers));
  }

  /** A ride a passenger managed to join would have been listed, before the join,
      for a search with the same pickup and drop-off texts and seat count — provided
      it is spelled exactly "OFFERED" and still ahead. */
  lemma JoinedRideWasListed(rides: seq<Ride>, employees: seq<Employee>, notifications: seq<Notification>,
                            rideId: int, email: string, d: JoinDetails, now: int, dayOf: int -> int)
    requires JoinRide(rides, employees, notifications, rideId, email, d, now).Success?
    requires var ride := rides[FindRide(rides, rideId).value];
      ride.rideType == "OFFERED" && ride.travelDateTime > now
    ensures Listed(rides[FindRide(rides, rideId).value], now, dayOf, None, d.pickupPoint, d.dropoffPoint,
                   Some(SeatsRequested(d)))
  {
    var ride := rides[FindRide(rides, rideId).value];
    var e := employees[FindEmployeeByEmail(employees, email).value];
    assert CheckJoin(ride, e, d).Success?;
    ResolveSegmentSuccess(BuildFullPath(ride), d.pickupPoint, d.dropoffPoint);
    JourneyIff(BuildFullPath(ride), d.pickupPoint, d.dropoffPoint);
  }

  /** A search that passes its seat test for `n` passengers means the join's seat
      check lets `n` seats through. */
  lemma ListedSeatsSatisfyJoin(ride: Ride, e: Employee, d: JoinDetails, now: int, dayOf: int -> int,
                               searchDay: Option<int>, origin: JString, destination: JString)
    requires SeatsRequested(d) >= 1
    requires Listed(ride, now, dayOf, searchDay, origin, destination, Some(SeatsRequested(d)))
    ensures !CheckJoin(ride, e, d).Failure? || !CheckJoin(ride, e, d).error.NotEnoughSeats?
  {
  }

  /** Search and join disagree on letter case: a ride whose type is stored as
      "offered" can be joined past the type check but is never listed. */
  lemma LowerCaseOfferHiddenFromSearch(ride: Ride, now: int, dayOf: int -> int, searchDay: Option<int>,
                                       origin: JString, destination: JString, passengers: Option<int>)
    requires ride.rideType == "offered"
    ensures EqualsIgnoreCase("OFFERED", Some(ride.rideType))
    ensures !Listed(ride, now, dayOf, searchDay, origin, destination, passengers)
  {
    assert Lower("OFFERED") == "offered";
    assert Lower("offered") == "offered";
  }
}
