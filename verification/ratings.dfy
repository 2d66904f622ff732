/** `RatingService` over in-memory stores: submitting a rating (one per ride,
    rater and ratee), the average a ratee receives, and the two targeted deletions
    used when a ride or a booking goes away. */
module Ratings {
  import opened Wrappers
  import opened JavaText
  import opened Seqs
  import opened Entities
  import opened Notifications

  datatype Rating = Rating(rideId: int, raterId: int, rateeId: int, score: int, comment: JString)

  /** The request body of a rating submission (`RatingDTO`). */
  datatype RatingRequest = RatingRequest(rideRequestId: int, rateeId: int, score: int, comment: JString)

  datatype RatingError = RaterNotFound | RateeNotFound | RideNotFound | AlreadyRated

  datatype RatingOutcome = RatingOutcome(ratings: seq<Rating>, notifications: seq<Notification>)

  predicate SameTriple(r: Rating, rideId: int, raterId: int, rateeId: int) {
    r.rideId == rideId && r.raterId == raterId && r.rateeId == rateeId
  }

  /** `ratingRepository.existsByRideRequestAndRaterAndRatee`. */
  predicate AlreadyRatedOn(ratings: seq<Rating>, rideId: int, raterId: int, rateeId: int) {
    exists i :: 0 <= i < |ratings| && SameTriple(ratings[i], rideId, raterId, rateeId)
  }

  /** `submitRating`: look up rater (by e-mail), ratee (by id) and ride, refuse a
      second rating of the same ratee by the same rater on the same ride, otherwise
      store the rating and notify the ratee. */
  function SubmitRating(ratings: seq<Rating>, notifications: seq<Notification>, employees: seq<Employee>,
                        rides: seq<Ride>, raterEmail: string, request: RatingRequest, now: int)
    : (r: Result<RatingOutcome, RatingError>)
    ensures FindEmployeeByEmail(employees, raterEmail).None? ==> r == Failure(RaterNotFound)
    ensures FindEmployeeByEmail(employees, raterEmail).Some? && FindEmployeeById(employees, request.rateeId).None? ==>
      r == Failure(RateeNotFound)
    ensures (FindEmployeeByEmail(employees, raterEmail).Some? && FindEmployeeById(employees, request.rateeId).Some? &&
             FindRide(rides, request.rideRequestId).None?) ==> r == Failure(RideNotFound)
    ensures (FindEmployeeByEmail(employees, raterEmail).Some? && FindEmployeeById(employees, request.rateeId).Some? &&
             FindRide(rides, request.rideRequestId).Some?) ==>
      var rater := employees[FindEmployeeByEmail(employees, raterEmail).value];
      var ride := rides[FindRide(rides, request.rideRequestId).value];
      (r.Success? <==> !AlreadyRatedOn(ratings, ride.id, rater.id, request.rateeId))
    ensures r.Failure? && r.error == AlreadyRated ==>
      AlreadyRatedOn(ratings, request.rideRequestId, employees[FindEmployeeByEmail(employees, raterEmail).value].id, request.rateeId)
    ensures r.Success? ==>
      FindEmployeeByEmail(employees, raterEmail).Some? && FindRide(rides, request.rideRequestId).Some? &&
      var rater := employees[FindEmployeeByEmail(employees, raterEmail).value];
      var ride := rides[FindRide(rides, request.rideRequestId).value];
      && !AlreadyRatedOn(ratings, ride.id, rater.id, request.rateeId)
      && r.value.ratings == ratings + [Rating(ride.id, rater.id, request.rateeId, request.score, request.comment)]
      && |r.value.notifications| == |notifications| + 1
      && r.value.notifications[..|notifications|] == notifications
      && r.value.notifications[|notifications|].userId == request.rateeId
      && r.value.notifications[|notifications|].kind == "RATING_RECEIVED"
      && r.value.notifications[|notifications|].rideId == Some(ride.id)
  {
    match FindEmployeeByEmail(employees, raterEmail)
    case None => Failure(RaterNotFound)
    case Some(ri) =>
      var rater := employees[ri];
      match FindEmployeeById(employees, request.rateeId)
      case None => Failure(RateeNotFound)
      case Some(ei) =>
        var ratee := employees[ei];
        match FindRide(rides, request.rideRequestId)
        case None => Failure(RideNotFound)
        case Some(di) =>
          var ride := rides[di];
          if AlreadyRatedOn(ratings, ride.id, rater.id, ratee.id) then Failure(AlreadyRated)
          else
            var message := Show(rater.name) + " rated you for the ride from " + Show(ride.originCity)
                           + " to " + Show(ride.destinationCity);
            Success(RatingOutcome(
              ratings + [Rating(ride.id, rater.id, ratee.id, request.score, request.comment)],
              CreateNotification(notifications, ratee.id, message, RideLink(ride.id), "RATING_RECEIVED", Some(ride.id), now)))
  }

  /** A rating already given on this ride to this ratee is never stored twice:
      resubmitting is refused and the stores stay as they are. */
  lemma SubmitTwiceRefused(ratings: seq<Rating>, notifications: seq<Notification>, employees: seq<Employee>,
                           rides: seq<Ride>, raterEmail: string, request: RatingRequest, now: int,
                           notifications': seq<Notification>, again: RatingRequest, later: int)
    requires SubmitRating(ratings, notifications, employees, rides, raterEmail, request, now).Success?
    requires again.rideRequestId == request.rideRequestId && again.rateeId == request.rateeId
    ensures var first := SubmitRating(ratings, notifications, employees, rides, raterEmail, request, now).value;
      SubmitRating(first.ratings, notifications', employees, rides, raterEmail, again, later) == Failure(AlreadyRated)
  {
    var first := SubmitRating(ratings, notifications, employees, rides, raterEmail, request, now).value;
    var rater := employees[FindEmployeeByEmail(employees, raterEmail).value];
    var ride := rides[FindRide(rides, request.rideRequestId).value];
    var ratee := employees[FindEmployeeById(employees, request.rateeId).value];
    assert SameTriple(first.ratings[|ratings|], ride.id, rater.id, ratee.id);
  }

  // ---------------------------------------------------------------- average

  function Sum(xs: seq<int>): int {
    if xs == [] then 0 else xs[0] + Sum(xs[1..])
  }

  function ForRatee(rateeId: int): Rating -> bool {
    (r: Rating) => r.rateeId == rateeId
  }

  /** Some rating of the ratee carries score `x`. */
  predicate ReceivedScore(ratings: seq<Rating>, rateeId: int, x: int) {
    exists i :: 0 <= i < |ratings| && ratings[i].rateeId == rateeId && ratings[i].score == x
  }

  /** The scores a ratee received (`findByRateeId`): one per rating of that ratee,
      in store order. */
  function ScoresFor(ratings: seq<Rating>, rateeId: int): (r: seq<int>)
    ensures |r| == |Filter(ratings, ForRatee(rateeId))|
    ensures forall k :: 0 <= k < |r| ==> r[k] == Filter(ratings, ForRatee(rateeId))[k].score
    ensures |r| == 0 <==> forall i :: 0 <= i < |ratings| ==> ratings[i].rateeId != rateeId
    ensures forall k :: 0 <= k < |r| ==> ReceivedScore(ratings, rateeId, r[k])
  {
    if ratings == [] then []
    else
      var rest := ScoresFor(ratings[1..], rateeId);
      var r := if ratings[0].rateeId == rateeId then [ratings[0].score] + rest else rest;
      ScoresFromFilter(ratings, rateeId, r);
      r
  }

  /** Scores read off the ratee's filtered ratings come from that ratee's ratings. */
  lemma ScoresFromFilter(ratings: seq<Rating>, rateeId: int, r: seq<int>)
    requires |r| == |Filter(ratings, ForRatee(rateeId))|
    requires forall k :: 0 <= k < |r| ==> r[k] == Filter(ratings, ForRatee(rateeId))[k].score
    ensures forall k :: 0 <= k < |r| ==> ReceivedScore(ratings, rateeId, r[k])
  {
    var f := Filter(ratings, ForRatee(rateeId));
    forall k | 0 <= k < |r|
      ensures ReceivedScore(ratings, rateeId, r[k])
    {
      assert f[k] in ratings && ForRatee(rateeId)(f[k]);
      var i :| 0 <= i < |ratings| && ratings[i] == f[k];
      assert ratings[i].rateeId == rateeId && ratings[i].score == r[k];
    }
  }

  lemma {:induction false} SumAtLeast(xs: seq<int>, m: int)
    requires forall i :: 0 <= i < |xs| ==> m <= xs[i]
    ensures |xs| * m <= Sum(xs)
  {
    if xs != [] {
      SumAtLeast(xs[1..], m);
      assert |xs| * m == m + |xs[1..]| * m;
    }
  }

  lemma {:induction false} SumAtMost(xs: seq<int>, m: int)
    requires forall i :: 0 <= i < |xs| ==> xs[i] <= m
    ensures Sum(xs) <= |xs| * m
  {
    if xs != [] {
      SumAtMost(xs[1..], m);
      assert |xs| * m == m + |xs[1..]| * m;
    }
  }

  function MinOf(xs: seq<int>): (r: int)
    requires |xs| > 0
    ensures r in xs && forall i :: 0 <= i < |xs| ==> r <= xs[i]
  {
    if |xs| == 1 then xs[0]
    else
      var m := MinOf(xs[1..]);
      assert m in xs;
      if xs[0] <= m then xs[0] else m
  }

  function MaxOf(xs: seq<int>): (r: int)
    requires |xs| > 0
    ensures r in xs && forall i :: 0 <= i < |xs| ==> xs[i] <= r
  {
    if |xs| == 1 then xs[0]
    else
      var m := MaxOf(xs[1..]);
      assert m in xs;
      if xs[0] >= m then xs[0] else m
  }

  lemma SumBetweenExtremes(xs: seq<int>)
    requires |xs| > 0
    ensures |xs| * MinOf(xs) <= Sum(xs) <= |xs| * MaxOf(xs)
  {
    SumAtLeast(xs, MinOf(xs));
    SumAtMost(xs, MaxOf(xs));
  }

  /** A total between `lo * n` and `hi * n` has a mean between `lo` and `hi`. */
  function Quotient(total: int, n: int, lo: int, hi: int): (m: real)
    requires n > 0 && n * lo <= total <= n * hi
    ensures lo as real <= m <= hi as real
  {
    total as real / n as real
  }

  /** The mean of a non-empty list of scores: the total over the count, which lies
      between the lowest and the highest score. */
  function Mean(xs: seq<int>): (m: real)
    requires |xs| > 0
    ensures MinOf(xs) as real <= m <= MaxOf(xs) as real
  {
    SumBetweenExtremes(xs);
    Quotient(Sum(xs), |xs|, MinOf(xs), MaxOf(xs))
  }

  /** `calculateAverageRating`: null when the ratee has no ratings, otherwise the
      mean of the scores they received. */
  function AverageRating(ratings: seq<Rating>, rateeId: int): (r: Option<real>)
    ensures r.None? <==> forall i :: 0 <= i < |ratings| ==> ratings[i].rateeId != rateeId
    ensures r.Some? ==> |ScoresFor(ratings, rateeId)| > 0 && r.value == Mean(ScoresFor(ratings, rateeId))
  {
    var scores := ScoresFor(ratings, rateeId);
    if |scores| == 0 then None else Some(Mean(scores))
  }

  // ---------------------------------------------------------------- deletions

  function NotOnRide(rideId: int): Rating -> bool {
    (r: Rating) => r.rideId != rideId
  }

  /** `deleteAllRatingsForRide`. */
  function DeleteAllRatingsForRide(ratings: seq<Rating>, rideId: int): (r: seq<Rating>)
    ensures forall i :: 0 <= i < |r| ==> r[i].rideId != rideId && r[i] in ratings
    ensures forall i :: 0 <= i < |ratings| && ratings[i].rideId != rideId ==> ratings[i] in r
  {
    Filter(ratings, NotOnRide(rideId))
  }

  predicate GivenBy(r: Rating, rideId: int, employeeId: int) {
    r.rideId == rideId && r.raterId == employeeId
  }

  predicate ReceivedBy(r: Rating, rideId: int, employeeId: int) {
    r.rideId == rideId && r.rateeId == employeeId
  }

  function NotGivenBy(rideId: int, employeeId: int): Rating -> bool {
    (x: Rating) => !GivenBy(x, rideId, employeeId)
  }

  function NotReceivedBy(rideId: int, employeeId: int): Rating -> bool {
    (x: Rating) => !ReceivedBy(x, rideId, employeeId)
  }

  /** The ratings that survive when `employeeId` leaves ride `rideId`. */
  function UntouchedByLeaving(rideId: int, employeeId: int): Rating -> bool {
    (x: Rating) => !(x.rideId == rideId && (x.raterId == employeeId || x.rateeId == employeeId))
  }

  /** `deleteRatingsForParticipantOnRide`: first the ratings the participant gave on
      the ride, then those they received there. */
  function DeleteRatingsForParticipantOnRide(ratings: seq<Rating>, rideId: int, participantId: int): (r: seq<Rating>)
    ensures forall i :: 0 <= i < |r| ==>
      r[i] in ratings && !GivenBy(r[i], rideId, participantId) && !ReceivedBy(r[i], rideId, participantId)
  {
    Filter(Filter(ratings, NotGivenBy(rideId, participantId)), NotReceivedBy(rideId, participantId))
  }

  /** The two deletions together remove exactly the ratings on that ride where the
      participant is rater or ratee; every other rating stays. */
  lemma DeleteForParticipantExact(ratings: seq<Rating>, rideId: int, participantId: int)
    ensures DeleteRatingsForParticipantOnRide(ratings, rideId, participantId) ==
      Filter(ratings, UntouchedByLeaving(rideId, participantId))
    ensures forall i :: 0 <= i < |ratings| ==>
      (ratings[i].rideId != rideId || (ratings[i].raterId != participantId && ratings[i].rateeId != participantId) ==>
         ratings[i] in DeleteRatingsForParticipantOnRide(ratings, rideId, participantId))
  {
    FilterTwice(ratings, NotGivenBy(rideId, participantId), NotReceivedBy(rideId, participantId),
                UntouchedByLeaving(rideId, participantId));
  }
}
