/** `RideRequestService.createRideOffer`: a driver publishes a ride. Blank stopovers
    are dropped, the whole-ride price is taken from the driver when it lies in the
    total band and recommended otherwise, and every segment between consecutive
    path points gets its own clamped price. The maps provider's answers (direct
    distance and per-leg distances) and the repository's new id are inputs. */
module RideOffer {
  import opened Wrappers
  import opened JavaText
  import opened Seqs
  import opened Entities
  import opened Notifications
  import opened Pricing
  import opened RouteMatching
  import opened RideJoin

  /** The offer form (`RideRequestDTO`). */
  datatype OfferRequest = OfferRequest(
    originCity: JString,
    origin: JString,
    destinationCity: JString,
    destination: JString,
    travelDateTime: int,
    vehicleCapacity: int,
    genderPreference: JString,
    stops: Option<seq<Stopover>>,
    price: Option<real>,
    stopoverPrices: Option<seq<real>>)

  /** What the maps provider reported: the direct origin-to-destination distance used
      for pricing, and the per-leg distances of the route through the stopovers. */
  datatype RouteInfo = RouteInfo(directDistance: real, segmentDistances: Option<seq<real>>)

  /** `MissingLegDistance` is the index-out-of-bounds failure when the provider
      reports some legs but fewer than there are segments. */
  datatype OfferError = NoSuchRequester | MissingLegDistance

  /** The stored offer with its prices. */
  datatype Offer = Offer(ride: Ride, price: real, pricePerKm: real, segmentPrices: seq<real>)

  datatype OfferOutcome = OfferOutcome(rides: seq<Ride>, notifications: seq<Notification>, offer: Offer)

  function HasPoint(): Stopover -> bool {
    (s: Stopover) => !IsNullOrBlank(s.point)
  }

  /** The stopovers kept: those with a non-blank point, in the order given; a missing
      list means none. */
  function KeptStops(stops: Option<seq<Stopover>>): (r: seq<Stopover>)
    ensures forall i :: 0 <= i < |r| ==> !IsNullOrBlank(r[i].point)
    ensures stops.Some? ==> forall i :: 0 <= i < |r| ==> r[i] in stops.value
    ensures stops.Some? ==> forall i :: 0 <= i < |stops.value| && !IsNullOrBlank(stops.value[i].point) ==> stops.value[i] in r
    ensures stops.None? ==> r == []
  {
    if stops.None? then [] else Filter(stops.value, HasPoint())
  }

  /** The kept stopovers are the given ones with a non-blank point, each once and in
      the order given, so the ride's path visits them in the driver's order. */
  lemma KeptStopsInOrder(stops: seq<Stopover>) returns (idx: seq<nat>)
    ensures Selects(stops, HasPoint(), KeptStops(Some(stops)), idx)
  {
    idx := FilterSelects(stops, HasPoint());
  }

  /** The driver's total price when it lies inside the band, the recommended
      price otherwise (also when none was proposed). */
  function TotalPrice(proposed: Option<real>, range: PriceRange): (r: real)
    requires range.minPrice <= range.recommendedPrice <= range.maxPrice
    ensures range.minPrice <= r <= range.maxPrice
    ensures proposed.Some? && range.minPrice <= proposed.value <= range.maxPrice ==> r == proposed.value
    ensures !(proposed.Some? && range.minPrice <= proposed.value <= range.maxPrice) ==> r == range.recommendedPrice
  {
    if proposed.Some? && range.minPrice <= proposed.value && proposed.value <= range.maxPrice then proposed.value
    else range.recommendedPrice
  }

  /** Price per kilometre of the direct distance; 0 for a non-positive distance. */
  function PricePerKm(price: real, directDistance: real): (r: real)
    ensures directDistance > 0.0 ==> r * directDistance == price
    ensures directDistance <= 0.0 ==> r == 0.0
  {
    if directDistance > 0.0 then price / directDistance else 0.0
  }

  /** One distance per segment: the provider's leg distances when it reported any,
      otherwise the direct distance split evenly. */
  function SegmentDistances(directDistance: real, legs: Option<seq<real>>, segments: nat)
    : (r: Result<seq<real>, OfferError>)
    requires segments >= 1
    ensures r.Success? ==> |r.value| == segments
    ensures (legs.None? || legs.value == []) ==>
      r.Success? && forall i :: 0 <= i < segments ==> r.value[i] * segments as real == directDistance
    ensures legs.Some? && legs.value != [] ==>
      if |legs.value| < segments then r == Failure(MissingLegDistance) else r == Success(legs.value[..segments])
  {
    if legs.Some? && legs.value != [] then
      if |legs.value| < segments then Failure(MissingLegDistance) else Success(legs.value[..segments])
    else
      var perSegment := directDistance / segments as real;
      Success(seq(segments, _ => perSegment))
  }

  /** The price of segment `i`: the driver's proposal for it clamped into the
      segment band and rounded to 10, or the band's recommended price when there
      is no proposal for that index. */
  function SegmentPrice(distance: real, proposals: Option<seq<real>>, i: nat): (r: real)
    ensures var range := SegmentPriceRange(distance);
      && range.minPrice <= r <= range.maxPrice
      && MultipleOf10(r)
    ensures (proposals.None? || i >= |proposals.value|) ==> r == RecommendedPrice(distance)
    ensures proposals.Some? && i < |proposals.value| ==>
      var range := SegmentPriceRange(distance);
      var clamped := Max(range.minPrice, Min(range.maxPrice, proposals.value[i]));
      r - 5.0 <= clamped < r + 5.0
  {
    var range := SegmentPriceRange(distance);
    if proposals.Some? && i < |proposals.value| then
      var clamped := Max(range.minPrice, Min(range.maxPrice, proposals.value[i]));
      RoundToNearest10Between(clamped, range.minPrice, range.maxPrice);
      RoundToNearest10(clamped)
    else
      range.recommendedPrice
  }

  /** A proposal that is already a multiple of 10 inside the segment band is kept
      as it is; one outside the band lands on the nearer bound. */
  lemma SegmentProposalHonoured(distance: real, proposals: seq<real>, i: nat)
    requires i < |proposals|
    ensures var range := SegmentPriceRange(distance);
      var r := SegmentPrice(distance, Some(proposals), i);
      && (range.minPrice <= proposals[i] <= range.maxPrice && MultipleOf10(proposals[i]) ==> r == proposals[i])
      && (proposals[i] < range.minPrice ==> r == range.minPrice)
      && (proposals[i] > range.maxPrice ==> r == range.maxPrice)
  {
    var range := SegmentPriceRange(distance);
    if range.minPrice <= proposals[i] <= range.maxPrice && MultipleOf10(proposals[i]) {
      RoundToNearest10Fixed(proposals[i]);
    }
    RoundToNearest10Fixed(range.minPrice);
    RoundToNearest10Fixed(range.maxPrice);
  }

  /** A segment price is pinned down: it is the one multiple of 10 within 5 of the
      clamped proposal, so an in-band 123 becomes 120 and 125 becomes 130. */
  lemma SegmentPricePinned(distance: real, proposals: seq<real>, i: nat, m: real)
    requires i < |proposals| && MultipleOf10(m)
    requires var range := SegmentPriceRange(distance);
      var clamped := Max(range.minPrice, Min(range.maxPrice, proposals[i]));
      m - 5.0 <= clamped < m + 5.0
    ensures SegmentPrice(distance, Some(proposals), i) == m
  {
    var range := SegmentPriceRange(distance);
    var clamped := Max(range.minPrice, Min(range.maxPrice, proposals[i]));
    Nearest10Unique(clamped, SegmentPrice(distance, Some(proposals), i), m);
  }

  /** Segment prices, one per segment distance, each from its own band. */
  function SegmentPrices(distances: seq<real>, proposals: Option<seq<real>>): (r: seq<real>)
    ensures |r| == |distances|
    ensures forall i :: 0 <= i < |r| ==>
      SegmentPriceRange(distances[i]).minPrice <= r[i] <= SegmentPriceRange(distances[i]).maxPrice && MultipleOf10(r[i])
    ensures forall i :: 0 <= i < |r| && (proposals.None? || i >= |proposals.value|) ==>
      r[i] == RecommendedPrice(distances[i])
    ensures forall i :: 0 <= i < |r| && proposals.Some? && i < |proposals.value| ==>
      var range := SegmentPriceRange(distances[i]);
      r[i] - 5.0 <= Max(range.minPrice, Min(range.maxPrice, proposals.value[i])) < r[i] + 5.0
  {
    seq(|distances|, i requires 0 <= i < |distances| => SegmentPrice(distances[i], proposals, i))
  }

  function OfferMessage(req: OfferRequest): string {
    "You offered a ride from " + Show(req.originCity) + " to " + Show(req.destinationCity)
  }

  /** `createRideOffer`: look up the driver, build the ride, price it, store it and
      notify the driver with RIDE_OFFERED. */
  function CreateRideOffer(rides: seq<Ride>, employees: seq<Employee>, notifications: seq<Notification>,
                           email: string, req: OfferRequest, route: RouteInfo, newId: int, now: int)
    : (r: Result<OfferOutcome, OfferError>)
    ensures FindEmployeeByEmail(employees, email).None? ==> r == Failure(NoSuchRequester)
    ensures r.Success? ==>
      FindEmployeeByEmail(employees, email).Some? &&
      var offer := r.value.offer;
      var ride := offer.ride;
      var total := TotalPriceRange(route.directDistance);
      var distances := SegmentDistances(route.directDistance, route.segmentDistances, |KeptStops(req.stops)| + 1);
      && ride.id == newId
      && ride.requester == employees[FindEmployeeByEmail(employees, email).value]
      && ride.rideType == "OFFERED" && ride.participants == []
      && ride.originCity == req.originCity && ride.origin == req.origin
      && ride.destinationCity == req.destinationCity && ride.destination == req.destination
      && ride.travelDateTime == req.travelDateTime
      && ride.genderPreference == req.genderPreference
      && ride.stopovers == KeptStops(req.stops)
      && ride.vehicleCapacity == req.vehicleCapacity
      && offer.price == TotalPrice(req.price, total)
      && total.minPrice <= offer.price <= total.maxPrice
      && offer.pricePerKm == PricePerKm(offer.price, route.directDistance)
      && distances.Success?
      && offer.segmentPrices == SegmentPrices(distances.value, req.stopoverPrices)
      && |offer.segmentPrices| == |ride.stopovers| + 1
      && r.value.rides == rides + [ride]
      && |r.value.notifications| == |notifications| + 1
      && r.value.notifications[..|notifications|] == notifications
      && r.value.notifications[|notifications|].userId == ride.requester.id
      && r.value.notifications[|notifications|].kind == "RIDE_OFFERED"
    ensures FindEmployeeByEmail(employees, email).Some? ==>
      (r.Failure? <==> SegmentDistances(route.directDistance, route.segmentDistances, |KeptStops(req.stops)| + 1).Failure?)
  {
    match FindEmployeeByEmail(employees, email)
    case None => Failure(NoSuchRequester)
    case Some(ei) =>
      var requester := employees[ei];
      var stops := KeptStops(req.stops);
      var ride := Ride(newId, req.originCity, req.origin, req.destinationCity, req.destination, stops,
                       "OFFERED", req.travelDateTime, req.vehicleCapacity, req.genderPreference, requester, []);
      var segments := |stops| + 1;
      var total := TotalPriceRange(route.directDistance);
      var price := TotalPrice(req.price, total);
      match SegmentDistances(route.directDistance, route.segmentDistances, segments)
      case Failure(e) => Failure(e)
      case Success(distances) =>
        var offer := Offer(ride, price, PricePerKm(price, route.directDistance), SegmentPrices(distances, req.stopoverPrices));
        Success(OfferOutcome(rides + [ride],
          CreateNotification(notifications, requester.id, OfferMessage(req), RideLink(newId), "RIDE_OFFERED", Some(newId), now),
          offer))
  }

  // ---------------------------------------------------------------- offer lemmas

  /** Every segment of a created offer is priced inside its own segment band, from
      the distance the provider (or the even split) gave for it. */
  lemma OfferSegmentsPriced(rides: seq<Ride>, employees: seq<Employee>, notifications: seq<Notification>,
                            email: string, req: OfferRequest, route: RouteInfo, newId: int, now: int)
    requires CreateRideOffer(rides, employees, notifications, email, req, route, newId, now).Success?
    ensures var offer := CreateRideOffer(rides, employees, notifications, email, req, route, newId, now).value.offer;
      var distances := SegmentDistances(route.directDistance, route.segmentDistances, |offer.ride.stopovers| + 1);
      && distances.Success?
      && forall i :: 0 <= i < |offer.segmentPrices| ==>
           var range := SegmentPriceRange(distances.value[i]);
           range.minPrice <= offer.segmentPrices[i] <= range.maxPrice && MultipleOf10(offer.segmentPrices[i])
  {
  }

  /** With no prices proposed, the offer carries the recommended total price and the
      recommended price of every segment. */
  lemma UnpricedOfferIsRecommended(rides: seq<Ride>, employees: seq<Employee>, notifications: seq<Notification>,
                                   email: string, req: OfferRequest, route: RouteInfo, newId: int, now: int)
    requires CreateRideOffer(rides, employees, notifications, email, req, route, newId, now).Success?
    requires req.price.None? && req.stopoverPrices.None?
    ensures var offer := CreateRideOffer(rides, employees, notifications, email, req, route, newId, now).value.offer;
      var distances := SegmentDistances(route.directDistance, route.segmentDistances, |offer.ride.stopovers| + 1).value;
      && offer.price == RecommendedPrice(route.directDistance)
      && forall i :: 0 <= i < |offer.segmentPrices| ==> offer.segmentPrices[i] == RecommendedPrice(distances[i])
  {
  }

  /** A new offer still ahead is found by a search for its own origin and destination
      texts, for any passenger count up to its capacity. */
  lemma NewOfferIsListed(rides: seq<Ride>, employees: seq<Employee>, notifications: seq<Notification>,
                         email: string, req: OfferRequest, route: RouteInfo, newId: int, now: int,
                         dayOf: int -> int, passengers: int)
    requires CreateRideOffer(rides, employees, notifications, email, req, route, newId, now).Success?
    requires req.travelDateTime > now && passengers <= req.vehicleCapacity
    requires !IsNullOrBlank(req.origin) && Normalize(req.origin) != []
    requires !IsNullOrBlank(req.destination) && Normalize(req.destination) != []
    ensures var ride := CreateRideOffer(rides, employees, notifications, email, req, route, newId, now).value.offer.ride;
      Listed(ride, now, dayOf, None, req.origin, req.destination, Some(passengers))
  {
    var ride := CreateRideOffer(rides, employees, notifications, email, req, route, newId, now).value.offer.ride;
    var path := BuildFullPath(ride);
    MatchesExact(path[0], req.origin);
    MatchesExact(path[|path| - 1], req.destination);
    assert MatchesLocation(path[0], req.origin) && MatchesLocation(path[|path| - 1], req.destination);
  }
}
