/** Route matching of `RideRequestService`: the ordered path of a ride, the
    tolerant free-text location matcher, the direction-respecting journey check
    used by search, and the one-pass pickup/drop-off scan used when joining. */
module RouteMatching {
  import opened Wrappers
  import opened JavaText
  import opened Seqs
  import opened Entities

  datatype RoutePoint = RoutePoint(city: JString, point: JString)

  // ---------------------------------------------------------------- path

  /** `buildFullPath`: origin, every stopover in order, destination. */
  function BuildFullPath(ride: Ride): (path: seq<RoutePoint>)
    ensures |path| == |ride.stopovers| + 2
    ensures path[0] == RoutePoint(ride.originCity, ride.origin)
    ensures path[|path| - 1] == RoutePoint(ride.destinationCity, ride.destination)
    ensures forall i :: 0 <= i < |ride.stopovers| ==>
      path[i + 1] == RoutePoint(ride.stopovers[i].city, ride.stopovers[i].point)
  {
    [RoutePoint(ride.originCity, ride.origin)]
    + seq(|ride.stopovers|, i requires 0 <= i < |ride.stopovers| =>
        RoutePoint(ride.stopovers[i].city, ride.stopovers[i].point))
    + [RoutePoint(ride.destinationCity, ride.destination)]
  }

  // ---------------------------------------------------------------- normalising

  /** `normalizeLocation`: lower-case, trim, collapse whitespace, then drop the
      region suffixes ", india", ", maharashtra", ", tamil nadu", ", andhra pradesh"
      in that order. A null location normalises to "". */
  function Normalize(location: JString): string {
    match location
    case None => ""
    case Some(s) =>
      var t := CollapseSpaces(Trim(Lower(s)));
      RemoveAll(RemoveAll(RemoveAll(RemoveAll(t, ", india"), ", maharashtra"), ", tamil nadu"), ", andhra pradesh")
  }

  /** The text before the first comma (all of it when there is none). */
  function BeforeComma(s: string): (r: string)
    ensures |r| <= |s| && r == s[..|r|]
    ensures ',' !in r
    ensures |r| < |s| ==> s[|r|] == ','
  {
    if s == [] || s[0] == ',' then [] else [s[0]] + BeforeComma(s[1..])
  }

  /** `extractMainCity`: the trimmed first comma-separated part of the normalised
      location when it has at least 3 UTF-16 code units, otherwise the whole normalised
      location. Java's `split(",")` drops trailing empty parts, but when that leaves
      no part at all the first part would have been empty, so the fallback is the same. */
  function ExtractMainCity(location: JString): string {
    if location.None? || location.value == [] then ""
    else
      var normalized := Normalize(location);
      var head := Trim(BeforeComma(normalized));
      if JavaLength(head) >= 3 then head else normalized
  }

  // ---------------------------------------------------------------- matching

  /** First tier: the normalised point equals, contains or is contained in the search. */
  predicate PointTier(point: string, search: string) {
    point != [] && (point == search || Contains(point, search) || Contains(search, point))
  }

  /** Second tier: the city equals the search, or one contains the other and the
      contained one is longer than 2 code units. */
  predicate CityTier(city: string, search: string) {
    city != [] &&
    (city == search || (Contains(city, search) && JavaLength(search) > 2) || (Contains(search, city) && JavaLength(city) > 2))
  }

  /** Third tier, on main cities: the search's main city (at least 3 code units) is
      contained in the city's or the point's, or contains the city's. */
  predicate MainCityTier(searchMain: string, cityMain: string, pointMain: string) {
    searchMain != [] && JavaLength(searchMain) >= 3 &&
    ((cityMain != [] && Contains(cityMain, searchMain))
     || (pointMain != [] && Contains(pointMain, searchMain))
     || (cityMain != [] && Contains(searchMain, cityMain)))
  }

  /** `matchesLocation`: does the free-text search refer to this route point? */
  predicate MatchesLocation(p: RoutePoint, search: JString) {
    !IsNullOrBlank(search) &&
    (PointTier(Normalize(p.point), Normalize(search))
     || CityTier(Normalize(p.city), Normalize(search))
     || MainCityTier(ExtractMainCity(search), ExtractMainCity(p.city), ExtractMainCity(p.point)))
  }

  function LowerPoint(p: RoutePoint): RoutePoint {
    RoutePoint(LowerOpt(p.city), LowerOpt(p.point))
  }

  lemma NormalizeLower(s: JString)
    ensures Normalize(LowerOpt(s)) == Normalize(s)
  {
    if s.Some? {
      LowerIdempotent(s.value);
    }
  }

  lemma ExtractMainCityLower(s: JString)
    ensures ExtractMainCity(LowerOpt(s)) == ExtractMainCity(s)
  {
    NormalizeLower(s);
  }

  /** The matcher is case-insensitive: it sees only the lower-cased inputs. */
  lemma MatchesCaseInsensitive(p: RoutePoint, search: JString)
    ensures MatchesLocation(LowerPoint(p), LowerOpt(search)) == MatchesLocation(p, search)
  {
    NormalizeLower(search);
    NormalizeLower(p.city);
    NormalizeLower(p.point);
    ExtractMainCityLower(search);
    ExtractMainCityLower(p.city);
    ExtractMainCityLower(p.point);
    if search.Some? {
      LowerPreservesBlank(search.value);
    }
  }

  /** A null or blank search matches nothing; a search whose normalised form equals
      the point's or the city's non-empty normalised form matches. */
  lemma MatchesExact(p: RoutePoint, search: JString)
    ensures IsNullOrBlank(search) ==> !MatchesLocation(p, search)
    ensures !IsNullOrBlank(search) && Normalize(search) != [] &&
      (Normalize(search) == Normalize(p.point) || Normalize(search) == Normalize(p.city))
      ==> MatchesLocation(p, search)
  {
  }

  /** A search of at most 2 code units passes the city tier only by equality. */
  lemma ShortSearchCityTierIsExact(city: string, search: string)
    requires JavaLength(search) <= 2
    ensures CityTier(city, search) <==> city != [] && city == search
  {
    if Contains(search, city) {
      JavaLengthContained(search, city);
    }
  }

  /** The main-city tier never fires for a search main city under 3 code units, and
      towards the point it only looks for the search inside the point. */
  lemma MainCityTierShape(searchMain: string, pointMain: string)
    ensures JavaLength(searchMain) < 3 ==> !MainCityTier(searchMain, "", pointMain)
    ensures MainCityTier(searchMain, "", pointMain) <==>
      JavaLength(searchMain) >= 3 && pointMain != [] && Contains(pointMain, searchMain)
  {
  }

  lemma {:induction false} CollapseWithoutSpaces(s: string)
    requires forall i :: 0 <= i < |s| ==> !IsRegexSpace(s[i])
    ensures CollapseSpaces(s) == s
  {
    if s != [] {
      CollapseWithoutSpaces(s[1..]);
      assert s == [s[0]] + s[1..];
    }
  }

  lemma SuffixOnlyPrepared()
    ensures CollapseSpaces(Trim(Lower(", India"))) == ", india"
  {
    assert Lower(", India") == ", india";
    assert Trim(", india") == ", india" by {
      assert TrimStart(", india") == ", india";
      assert TrimEnd(", india") == ", india";
    }
    assert CollapseSpaces(", india") == ", india" by {
      CollapseWithoutSpaces("india");
      assert ", india"[1..] == " india";
      assert " india"[1..] == "india";
      assert DropSpaces("india") == "india";
    }
  }

  /** ", India" is not blank, yet every step of normalisation leaves nothing of it. */
  lemma SuffixOnlyNormalizesToEmpty()
    ensures !IsBlank(", India")
    ensures Normalize(Some(", India")) == []
  {
    SuffixOnlyPrepared();
    assert RemoveAll(", india", ", india") == [] by {
      assert StartsWith(", india", ", india");
      assert ", india"[7..] == [];
    }
    BlankIff(", India");
    assert !IsTrimmable(", India"[0]);
  }

  /** A search that is not blank but normalises to "" (such as ", India") is contained
      in every point, so it matches every route point whose point is not empty. */
  lemma SuffixOnlySearchMatchesEveryPoint(p: RoutePoint)
    requires Normalize(p.point) != []
    ensures MatchesLocation(p, Some(", India"))
  {
    SuffixOnlyNormalizesToEmpty();
    ContainsEmpty(Normalize(p.point));
    assert PointTier(Normalize(p.point), Normalize(Some(", India")));
  }

  // ---------------------------------------------------------------- journeys

  function MatchAt(search: JString): RoutePoint -> bool {
    (p: RoutePoint) => MatchesLocation(p, search)
  }

  /** The first element satisfying `p`, then some later element satisfying `q`. */
  predicate InOrder<T>(s: seq<T>, p: T -> bool, q: T -> bool) {
    match First(s, p)
    case None => false
    case Some(i) => FirstFrom(s, i + 1, q).Some?
  }

  lemma InOrderIff<T>(s: seq<T>, p: T -> bool, q: T -> bool)
    ensures InOrder(s, p, q) <==> exists i, j :: 0 <= i < j < |s| && p(s[i]) && q(s[j])
  {
    if exists i, j :: 0 <= i < j < |s| && p(s[i]) && q(s[j]) {
      var i, j :| 0 <= i < j < |s| && p(s[i]) && q(s[j]);
      var first := First(s, p);
      assert first.Some? && first.value <= i;
      assert FirstFrom(s, first.value + 1, q).Some?;
    }
    if InOrder(s, p, q) {
      var first := First(s, p).value;
      var later := FirstFrom(s, first + 1, q).value;
      assert p(s[first]) && q(s[later]);
    }
  }

  /** `canAccommodateJourney`: the first point matching the origin, then some later
      point matching the destination. */
  predicate CanAccommodateJourney(path: seq<RoutePoint>, origin: JString, destination: JString) {
    InOrder(path, MatchAt(origin), MatchAt(destination))
  }

  /** The journey check holds exactly when some point matches the origin strictly
      before some point that matches the destination. */
  lemma JourneyIff(path: seq<RoutePoint>, origin: JString, destination: JString)
    ensures CanAccommodateJourney(path, origin, destination) <==>
      exists i, j :: 0 <= i < j < |path| && MatchesLocation(path[i], origin) && MatchesLocation(path[j], destination)
  {
    InOrderIff(path, MatchAt(origin), MatchAt(destination));
    if exists i, j :: 0 <= i < j < |path| && MatchesLocation(path[i], origin) && MatchesLocation(path[j], destination) {
      var i, j :| 0 <= i < j < |path| && MatchesLocation(path[i], origin) && MatchesLocation(path[j], destination);
      assert MatchAt(origin)(path[i]) && MatchAt(destination)(path[j]);
    }
    if CanAccommodateJourney(path, origin, destination) {
      var i, j :| 0 <= i < j < |path| && MatchAt(origin)(path[i]) && MatchAt(destination)(path[j]);
      assert MatchesLocation(path[i], origin) && MatchesLocation(path[j], destination);
    }
  }

  /** Travelling against the path is rejected: if the origin matches only at index a
      and the destination only at indices up to a, there is no journey. */
  lemma ReverseDirectionRejected(path: seq<RoutePoint>, origin: JString, destination: JString, a: nat)
    requires forall i :: 0 <= i < |path| && MatchesLocation(path[i], origin) ==> i == a
    requires forall j :: 0 <= j < |path| && MatchesLocation(path[j], destination) ==> j <= a
    ensures !CanAccommodateJourney(path, origin, destination)
  {
    JourneyIff(path, origin, destination);
  }

  // ---------------------------------------------------------------- join scan

  datatype Scan = Scan(pickup: Option<nat>, dropoff: Option<nat>)

  /** The loop of `joinRideRequest`: the pickup index is set at the first element
      satisfying `isPickup`, and from that same index on the first element satisfying
      `isDropoff` ends the scan. */
  function ScanFrom<T>(s: seq<T>, isPickup: T -> bool, isDropoff: T -> bool, i: nat, pickup: Option<nat>): Scan
    decreases |s| - i
  {
    if i >= |s| then Scan(pickup, None)
    else
      var pk := if pickup.None? && isPickup(s[i]) then Some(i) else pickup;
      if pk.Some? && isDropoff(s[i]) then Scan(pk, Some(i))
      else ScanFrom(s, isPickup, isDropoff, i + 1, pk)
  }

  lemma {:induction false} ScanAfterPickup<T>(s: seq<T>, isPickup: T -> bool, isDropoff: T -> bool, i: nat, p: nat)
    ensures ScanFrom(s, isPickup, isDropoff, i, Some(p)) == Scan(Some(p), FirstFrom(s, i, isDropoff))
    decreases |s| - i
  {
    if i < |s| && !isDropoff(s[i]) {
      ScanAfterPickup(s, isPickup, isDropoff, i + 1, p);
    }
  }

  lemma {:induction false} ScanBeforePickup<T>(s: seq<T>, isPickup: T -> bool, isDropoff: T -> bool, i: nat)
    ensures var first := FirstFrom(s, i, isPickup);
      ScanFrom(s, isPickup, isDropoff, i, None) ==
        if first.None? then Scan(None, None)
        else Scan(first, FirstFrom(s, first.value, isDropoff))
    decreases |s| - i
  {
    if i < |s| {
      if isPickup(s[i]) {
        ScanAfterPickup(s, isPickup, isDropoff, i, i);
      } else {
        ScanBeforePickup(s, isPickup, isDropoff, i + 1);
      }
    }
  }

  function JoinScan(path: seq<RoutePoint>, pickupText: JString, dropoffText: JString): Scan {
    ScanFrom(path, MatchAt(pickupText), MatchAt(dropoffText), 0, None)
  }

  /** The one-pass scan finds the first pickup match, then the first drop-off match
      at or after it — possibly at the pickup index itself. */
  lemma JoinScanIsFirstMatches(path: seq<RoutePoint>, pickupText: JString, dropoffText: JString)
    ensures var first := First(path, MatchAt(pickupText));
      JoinScan(path, pickupText, dropoffText) ==
        if first.None? then Scan(None, None)
        else Scan(first, FirstFrom(path, first.value, MatchAt(dropoffText)))
  {
    ScanBeforePickup(path, MatchAt(pickupText), MatchAt(dropoffText), 0);
  }

  datatype SegmentError = NotOnRoute | PickupNotBeforeDropoff

  /** The pickup/drop-off validation of `joinRideRequest`: both must be found by the
      scan, and the pickup must come strictly first. */
  function ResolveSegment(path: seq<RoutePoint>, pickupText: JString, dropoffText: JString): (r: Result<(nat, nat), SegmentError>)
    ensures r.Success? ==> r.value.0 < r.value.1 < |path|
  {
    var scan := JoinScan(path, pickupText, dropoffText);
    JoinScanIsFirstMatches(path, pickupText, dropoffText);
    if scan.pickup.None? || scan.dropoff.None? then Failure(NotOnRoute)
    else if scan.pickup.value >= scan.dropoff.value then Failure(PickupNotBeforeDropoff)
    else Success((scan.pickup.value, scan.dropoff.value))
  }

  /** On success the pickup is the first point matching the pickup text, the drop-off
      is the first later point matching the drop-off text, and the journey check agrees. */
  lemma ResolveSegmentSuccess(path: seq<RoutePoint>, pickupText: JString, dropoffText: JString)
    requires ResolveSegment(path, pickupText, dropoffText).Success?
    ensures var (p, d) := ResolveSegment(path, pickupText, dropoffText).value;
      && MatchesLocation(path[p], pickupText)
      && (forall k :: 0 <= k < p ==> !MatchesLocation(path[k], pickupText))
      && MatchesLocation(path[d], dropoffText)
      && (forall k :: p <= k < d ==> !MatchesLocation(path[k], dropoffText))
    ensures CanAccommodateJourney(path, pickupText, dropoffText)
  {
    JoinScanIsFirstMatches(path, pickupText, dropoffText);
    var first := First(path, MatchAt(pickupText));
    var (p, d) := ResolveSegment(path, pickupText, dropoffText).value;
    forall k | 0 <= k < p
      ensures !MatchesLocation(path[k], pickupText)
    {
      assert !MatchAt(pickupText)(path[k]);
    }
    forall k | p <= k < d
      ensures !MatchesLocation(path[k], dropoffText)
    {
      assert !MatchAt(dropoffText)(path[k]);
    }
    assert MatchAt(pickupText)(path[p]);
    assert MatchAt(dropoffText)(path[d]);
    JourneyIff(path, pickupText, dropoffText);
  }

  /** The join is stricter than search: when the first point matching the pickup also
      matches the drop-off, the join is refused even if a later point matches the
      drop-off and the journey check accepts the pair. */
  lemma JoinStricterThanJourney(path: seq<RoutePoint>, pickupText: JString, dropoffText: JString, p: nat, later: nat)
    requires p < later < |path|
    requires MatchesLocation(path[p], pickupText) && MatchesLocation(path[p], dropoffText)
    requires forall k :: 0 <= k < p ==> !MatchesLocation(path[k], pickupText)
    requires MatchesLocation(path[later], dropoffText)
    ensures ResolveSegment(path, pickupText, dropoffText) == Failure(PickupNotBeforeDropoff)
    ensures CanAccommodateJourney(path, pickupText, dropoffText)
  {
    var isPickup, isDropoff := MatchAt(pickupText), MatchAt(dropoffText);
    assert forall k :: 0 <= k < p ==> !isPickup(path[k]);
    FirstMatchesBoth(path, isPickup, isDropoff, p, later);
    JoinScanIsFirstMatches(path, pickupText, dropoffText);
  }

  /** The generic core of the lemma above, with the matchers abstracted. */
  lemma FirstMatchesBoth<T>(s: seq<T>, isPickup: T -> bool, isDropoff: T -> bool, p: nat, later: nat)
    requires p < later < |s|
    requires isPickup(s[p]) && isDropoff(s[p]) && isDropoff(s[later])
    requires forall k :: 0 <= k < p ==> !isPickup(s[k])
    ensures First(s, isPickup) == Some(p)
    ensures FirstFrom(s, p, isDropoff) == Some(p)
    ensures InOrder(s, isPickup, isDropoff)
  {
  }

  /** No point matching the pickup text, or none matching the drop-off text from the
      first pickup match on, is a "not on the route" refusal. */
  lemma ResolveSegmentNotOnRoute(path: seq<RoutePoint>, pickupText: JString, dropoffText: JString)
    ensures (forall k :: 0 <= k < |path| ==> !MatchesLocation(path[k], pickupText)) ==>
      ResolveSegment(path, pickupText, dropoffText) == Failure(NotOnRoute)
    ensures (forall k :: 0 <= k < |path| ==> !MatchesLocation(path[k], dropoffText)) ==>
      ResolveSegment(path, pickupText, dropoffText) == Failure(NotOnRoute)
  {
    JoinScanIsFirstMatches(path, pickupText, dropoffText);
    var first := First(path, MatchAt(pickupText));
    if first.Some? {
      assert MatchAt(pickupText)(path[first.value]);
      var d := FirstFrom(path, first.value, MatchAt(dropoffText));
      if d.Some? {
        assert MatchAt(dropoffText)(path[d.value]);
      }
    }
  }
}
