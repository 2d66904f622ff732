/** `RideCancellationService` over one in-memory world of rides, ratings and
    notifications: a passenger leaving a ride, and a driver cancelling it. */
module RideCancellation {
  import opened Wrappers
  import opened JavaText
  import opened Seqs
  import opened Entities
  import opened Notifications
  import opened Ratings

  datatype World = World(rides: seq<Ride>, ratings: seq<Rating>, notifications: seq<Notification>)

  datatype CancelError = NoSuchRide | NotAParticipant | NotAuthorized

  /** A booking whose passenger's e-mail equals `email`, ignoring case. */
  function BookedBy(email: string): Participant -> bool {
    (p: Participant) => EqualsIgnoreCase(p.participant.email, Some(email))
  }

  function PassengerLeftMessage(who: Employee, ride: Ride): string {
    Show(who.name) + " has cancelled their booking for your ride from " + Show(ride.originCity) + " to " + Show(ride.destinationCity)
  }

  /** `cancelRideAsPassenger`: the first booking made under `userEmail` (ignoring
      case) is removed, the ratings that passenger gave or received on the ride are
      deleted, and the driver is told PASSENGER_CANCELLED. */
  function CancelAsPassenger(w: World, rideId: int, userEmail: string, now: int): (r: Result<World, CancelError>)
    ensures FindRide(w.rides, rideId).None? ==> r == Failure(NoSuchRide)
    ensures FindRide(w.rides, rideId).Some? ==>
      var ride := w.rides[FindRide(w.rides, rideId).value];
      (r == Failure(NotAParticipant) <==>
        forall j :: 0 <= j < |ride.participants| ==> !EqualsIgnoreCase(ride.participants[j].participant.email, Some(userEmail)))
    ensures r.Success? ==>
      FindRide(w.rides, rideId).Some? && First(w.rides[FindRide(w.rides, rideId).value].participants, BookedBy(userEmail)).Some? &&
      var k := FindRide(w.rides, rideId).value;
      var ride := w.rides[k];
      var j := First(ride.participants, BookedBy(userEmail)).value;
      var who := ride.participants[j].participant;
      && EqualsIgnoreCase(who.email, Some(userEmail))
      && (forall i :: 0 <= i < j ==> !EqualsIgnoreCase(ride.participants[i].participant.email, Some(userEmail)))
      && r.value.rides == w.rides[k := ride.(participants := RemoveAt(ride.participants, j))]
      && r.value.ratings == DeleteRatingsForParticipantOnRide(w.ratings, ride.id, who.id)
      && |r.value.notifications| == |w.notifications| + 1
      && r.value.notifications[..|w.notifications|] == w.notifications
      && r.value.notifications[|w.notifications|].userId == ride.requester.id
      && r.value.notifications[|w.notifications|].kind == "PASSENGER_CANCELLED"
  {
    match FindRide(w.rides, rideId)
    case None => Failure(NoSuchRide)
    case Some(k) =>
      var ride := w.rides[k];
      match First(ride.participants, BookedBy(userEmail))
      case None => Failure(NotAParticipant)
      case Some(j) =>
        var who := ride.participants[j].participant;
        var left := ride.(participants := RemoveAt(ride.participants, j));
        Success(World(
          w.rides[k := left],
          DeleteRatingsForParticipantOnRide(w.ratings, ride.id, who.id),
          CreateNotification(w.notifications, ride.requester.id, PassengerLeftMessage(who, ride),
                             RideLink(ride.id), "PASSENGER_CANCELLED", Some(ride.id), now)))
  }

  /** Leaving frees exactly the seats of the removed booking; every other booking and
      every other ride stay as they were. */
  lemma PassengerCancelFreesSeats(w: World, rideId: int, userEmail: string, now: int)
    requires CancelAsPassenger(w, rideId, userEmail, now).Success?
    ensures var k := FindRide(w.rides, rideId).value;
      var ride := w.rides[k];
      var j := First(ride.participants, BookedBy(userEmail)).value;
      var after := CancelAsPassenger(w, rideId, userEmail, now).value;
      && |after.rides| == |w.rides|
      && (forall i :: 0 <= i < |w.rides| && i != k ==> after.rides[i] == w.rides[i])
      && BookedSeats(after.rides[k].participants) == BookedSeats(ride.participants) - SeatsOf(ride.participants[j])
      && multiset(after.rides[k].participants) + multiset{ride.participants[j]} == multiset(ride.participants)
  {
    var k := FindRide(w.rides, rideId).value;
    var ride := w.rides[k];
    var j := First(ride.participants, BookedBy(userEmail)).value;
    BookedSeatsRemove(ride.participants, j);
  }

  /** Ratings on other rides, and ratings on this ride between other people, survive
      a passenger leaving. */
  lemma PassengerCancelKeepsOtherRatings(w: World, rideId: int, userEmail: string, now: int, x: Rating)
    requires CancelAsPassenger(w, rideId, userEmail, now).Success?
    requires x in w.ratings
    requires var ride := w.rides[FindRide(w.rides, rideId).value];
      var who := ride.participants[First(ride.participants, BookedBy(userEmail)).value].participant;
      x.rideId != ride.id || (x.raterId != who.id && x.rateeId != who.id)
    ensures x in CancelAsPassenger(w, rideId, userEmail, now).value.ratings
  {
    var ride := w.rides[FindRide(w.rides, rideId).value];
    var who := ride.participants[First(ride.participants, BookedBy(userEmail)).value].participant;
    DeleteForParticipantExact(w.ratings, ride.id, who.id);
    var i :| 0 <= i < |w.ratings| && w.ratings[i] == x;
  }

  function DriverCancelledMessage(ride: Ride): string {
    "Your ride from " + Show(ride.originCity) + " to " + Show(ride.destinationCity) + " has been cancelled by the driver."
  }

  const DashboardLink: string := "/dashboard"

  /** The unread RIDE_CANCELLED notice for passenger `p`, linking to the dashboard. */
  predicate CancelledNotice(n: Notification, p: Participant, rideId: int) {
    && n.userId == p.participant.id
    && n.kind == "RIDE_CANCELLED"
    && n.link == DashboardLink
    && n.rideId == Some(rideId)
    && !n.isRead
  }

  /** One RIDE_CANCELLED notification per booking, the i-th for the i-th booking. */
  function NotifyPassengers(store: seq<Notification>, ps: seq<Participant>, message: string, rideId: int, now: int)
    : (r: seq<Notification>)
    ensures |r| == |store| + |ps| && r[..|store|] == store
    ensures forall i :: 0 <= i < |ps| ==> CancelledNotice(r[|store| + i], ps[i], rideId)
    decreases |ps|
  {
    if ps == [] then store
    else
      var next := CreateNotification(store, ps[0].participant.id, message, DashboardLink, "RIDE_CANCELLED", Some(rideId), now);
      var r := NotifyPassengers(next, ps[1..], message, rideId, now);
      assert r[..|store|] == next[..|next|][..|store|];
      forall i | 0 <= i < |ps|
        ensures CancelledNotice(r[|store| + i], ps[i], rideId)
      {
        if i == 0 {
          assert r[|store|] == r[..|next|][|store|] == next[|store|];
        } else {
          assert ps[i] == ps[1..][i - 1];
          assert |store| + i == |next| + (i - 1);
        }
      }
      r
  }

  /** `cancelRideAsDriver`: only the driver (e-mail equal ignoring case) may cancel;
      then all of the ride's ratings go, every passenger is notified and the ride is
      removed. A refused cancellation changes nothing. */
  function CancelAsDriver(w: World, rideId: int, driverEmail: string, now: int): (r: Result<World, CancelError>)
    ensures FindRide(w.rides, rideId).None? ==> r == Failure(NoSuchRide)
    ensures FindRide(w.rides, rideId).Some? ==>
      var ride := w.rides[FindRide(w.rides, rideId).value];
      (r == Failure(NotAuthorized) <==> !EqualsIgnoreCase(ride.requester.email, Some(driverEmail)))
    ensures r.Success? ==>
      FindRide(w.rides, rideId).Some? &&
      var k := FindRide(w.rides, rideId).value;
      var ride := w.rides[k];
      && r.value.rides == RemoveAt(w.rides, k)
      && r.value.ratings == DeleteAllRatingsForRide(w.ratings, ride.id)
      && |r.value.notifications| == |w.notifications| + |ride.participants|
      && r.value.notifications[..|w.notifications|] == w.notifications
      && (forall i :: 0 <= i < |ride.participants| ==>
            r.value.notifications[|w.notifications| + i].userId == ride.participants[i].participant.id)
  {
    match FindRide(w.rides, rideId)
    case None => Failure(NoSuchRide)
    case Some(k) =>
      var ride := w.rides[k];
      if !EqualsIgnoreCase(ride.requester.email, Some(driverEmail)) then Failure(NotAuthorized)
      else
        Success(World(
          RemoveAt(w.rides, k),
          DeleteAllRatingsForRide(w.ratings, ride.id),
          NotifyPassengers(w.notifications, ride.participants, DriverCancelledMessage(ride), ride.id, now)))
  }

  /** After a driver cancels, no rating of that ride is left and every rating of
      another ride is kept. */
  lemma DriverCancelRatingsExact(w: World, rideId: int, driverEmail: string, now: int)
    requires CancelAsDriver(w, rideId, driverEmail, now).Success?
    ensures var ride := w.rides[FindRide(w.rides, rideId).value];
      var after := CancelAsDriver(w, rideId, driverEmail, now).value;
      && (forall i :: 0 <= i < |after.ratings| ==> after.ratings[i].rideId != ride.id)
      && (forall i :: 0 <= i < |w.ratings| && w.ratings[i].rideId != ride.id ==> w.ratings[i] in after.ratings)
  {
  }

  /** When ride ids are unique, the cancelled ride cannot be found again. */
  lemma DriverCancelRemovesRide(w: World, rideId: int, driverEmail: string, now: int)
    requires CancelAsDriver(w, rideId, driverEmail, now).Success?
    requires forall i, j :: 0 <= i < j < |w.rides| ==> w.rides[i].id != w.rides[j].id
    ensures FindRide(CancelAsDriver(w, rideId, driverEmail, now).value.rides, rideId).None?
    ensures |CancelAsDriver(w, rideId, driverEmail, now).value.rides| == |w.rides| - 1
  {
    var k := FindRide(w.rides, rideId).value;
    var after := CancelAsDriver(w, rideId, driverEmail, now).value.rides;
    forall i | 0 <= i < |after|
      ensures after[i].id != rideId
    {
      if i < k {
        assert after[i] == w.rides[i];
      } else {
        assert after[i] == w.rides[i + 1];
      }
    }
  }
}
