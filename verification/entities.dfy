/** The persisted records the services read and write (`Employee`, `Stopover`,
    `RideParticipant`, `RideRequest`), as immutable values, and the repository
    lookups by id and e-mail over an in-memory store. */
module Entities {
  import opened Wrappers
  import opened JavaText
  import opened Seqs

  datatype Employee = Employee(
    id: int,
    name: JString,
    email: string,
    password: string,
    gender: JString,
    phoneNumber: JString,
    profilePictureUrl: JString,
    travelCredit: real,
    role: string)

  datatype Stopover = Stopover(city: JString, point: JString)

  /** A booking: who joined, the path points they board and leave at, and seats taken. */
  datatype Participant = Participant(
    participant: Employee,
    pickupPoint: JString,
    dropoffPoint: JString,
    price: real,
    numberOfSeats: Option<int>)

  /** A ride offer. `travelDateTime` is an abstract instant, compared with the clock. */
  datatype Ride = Ride(
    id: int,
    originCity: JString,
    origin: JString,
    destinationCity: JString,
    destination: JString,
    stopovers: seq<Stopover>,
    rideType: string,
    travelDateTime: int,
    vehicleCapacity: int,
    genderPreference: JString,
    requester: Employee,
    participants: seq<Participant>)

  /** `rideRequestRepository.findById`. */
  function FindRide(rides: seq<Ride>, rideId: int): Option<nat> {
    First(rides, (r: Ride) => r.id == rideId)
  }

  /** `employeeRepository.findByEmail` (an exact comparison). */
  function FindEmployeeByEmail(employees: seq<Employee>, email: string): Option<nat> {
    First(employees, (e: Employee) => e.email == email)
  }

  /** `employeeRepository.findById`. */
  function FindEmployeeById(employees: seq<Employee>, id: int): Option<nat> {
    First(employees, (e: Employee) => e.id == id)
  }

  /** The link of a ride's page in notifications, `"/ride/" + id`. */
  function RideLink(rideId: int): string {
    "/ride/" + LongToString(rideId)
  }

  /** Seats one booking occupies: a missing count stands for one seat. */
  function SeatsOf(p: Participant): int {
    p.numberOfSeats.GetOr(1)
  }

  /** `participants.stream().mapToInt(p -> seats-or-1).sum()`. */
  function BookedSeats(ps: seq<Participant>): int {
    if ps == [] then 0 else SeatsOf(ps[0]) + BookedSeats(ps[1..])
  }

  /** Booked seats are additive over the bookings, so appending one booking adds its seats. */
  lemma {:induction false} BookedSeatsAppend(ps: seq<Participant>, p: Participant)
    ensures BookedSeats(ps + [p]) == BookedSeats(ps) + SeatsOf(p)
  {
    if ps != [] {
      assert (ps + [p])[1..] == ps[1..] + [p];
      BookedSeatsAppend(ps[1..], p);
    }
  }

  /** Removing one booking frees exactly its seats. */
  lemma {:induction false} BookedSeatsRemove(ps: seq<Participant>, k: nat)
    requires k < |ps|
    ensures BookedSeats(RemoveAt(ps, k)) == BookedSeats(ps) - SeatsOf(ps[k])
  {
    if k == 0 {
      assert RemoveAt(ps, k) == ps[1..];
    } else {
      assert RemoveAt(ps, k)[1..] == RemoveAt(ps[1..], k - 1);
      BookedSeatsRemove(ps[1..], k - 1);
    }
  }
}
