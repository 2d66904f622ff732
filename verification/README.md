# HomeRide ride-sharing backend — a Dafny model of its core

HomeRide is a Spring Boot backend for sharing rides between employees.
A driver offers a ride along a route of points. Passengers search for rides and
join a segment of one. People rate each other, get notifications and can cancel.
This project models the rules at the centre of that backend as pure Dafny
functions over immutable records, and proves properties of them:

- **Pricing** (`pricing.dfy`). The tiered recommended fare is rounded to 10 and
  floored at 50. It is widened into a total band and a segment band.
- **Route matching** (`route_matching.dfy`):
  - the ride's path: origin, stopovers, destination;
  - the three-tier free-text location matcher, with its normalisation;
  - the direction-respecting journey check;
  - the stricter one-pass pickup/drop-off scan used when joining.
- **Joining and searching** (`ride_join.dfy`). This covers the join validation
  and booking, and the two-stage passenger search filter.
- **Offering** (`ride_offer.dfy`). This covers stopover filtering, total price
  reconciliation, the segment distance fallback and clamped segment prices.
- **Request filter** (`jwt_filter.dfy`). This covers the public-endpoint
  classifier and the `Bearer` token slice.
- **Chatbot routing** (`chatbot.dfy`). This covers the support-request test, the
  keyword question classifier and the choice of context.
- **Store transitions**, each over sequences of records:
  - notifications, with the chat de-duplication (`notifications.dfy`);
  - ratings (`ratings.dfy`);
  - employees (`employees.dfy`);
  - cancellation by a passenger or by the driver (`ride_cancellation.dfy`).

Shared modules:

- `wrappers.dfy` holds `Option` and `Result`.
- `java_text.dfy` holds the Java `String` operations the services rely on:
  - `toLowerCase`, `trim`, `contains` and `equalsIgnoreCase`;
  - `replace` as a single left-to-right pass;
  - `replaceAll("\\s+", " ")`;
  - `String.valueOf(long)`;
  - `length()` in UTF-16 code units;
  - `Number.intValue()` as a 32-bit two's-complement cut;
  - `null` rendered as "null" in string concatenation.
- `seqs.dfy` holds first-match search, filter and remove-at.
- `entities.dfy` holds the persisted records and the repository lookups.

Modelling conventions:

- Every repository is a sequence, and a lookup finds the first matching record.
- A failing lookup or validation is a `Failure` carrying the reason, in the order
  the source checks them.
- Nullable strings are `Option<string>`.
- Prices and distances are `real`, and `Math.round(x)` is `floor(x + 0.5)`.
- The clock, the maps provider's distances, generated ids and the password
  encoder are parameters.

## Model

| member | source | states |
|---|---|---|
| Pricing.RecommendedPrice | src/main/java/com/homeride/backend/service/PricingService.java:34-48 | the recommended fare is a multiple of 10 and at least 50, and is exactly 50 for any distance ≤ 0 |
| Pricing.RecommendedPriceNearTariff | src/main/java/com/homeride/backend/service/PricingService.java:37-47 | for a positive distance the fare is within 5 (ties up) of 50 + d·rate, with rate 2.2 below 100 km, 2.0 up to 300 km, 1.8 beyond |
| Pricing.NonPositiveDistanceIsMinimum | src/main/java/com/homeride/backend/service/PricingService.java:35 | a distance ≤ 0 gets fare 50 and total band (50, 150) |
| Pricing.NotMonotoneAtFirstTierEdge | src/main/java/com/homeride/backend/service/PricingService.java:38-47 | 99 km costs 270 but 100 km costs 250: the fare drops at the tier edge |
| Pricing.ThirdTierEdge | src/main/java/com/homeride/backend/service/PricingService.java:40-47 | 300 km costs 650 but 301 km costs 590 |
| Pricing.RoundToNearest10 | src/main/java/com/homeride/backend/service/PricingService.java:53-55 | the result is a multiple of 10 at most 5 from the input, with a tie at 5 rounding up |
| Pricing.RoundToNearest10Between | src/main/java/com/homeride/backend/service/PricingService.java:53-55 | rounding a value between two multiples of 10 stays between them |
| Pricing.RoundToNearest10Fixed | src/main/java/com/homeride/backend/service/PricingService.java:53-55 | a multiple of 10 rounds to itself |
| Pricing.TotalPriceRange | src/main/java/com/homeride/backend/service/PricingService.java:61-74 | 50 ≤ min ≤ recommended ≤ max, max − min ≥ 100, all three multiples of 10; min is the larger of 50 and the multiple of 10 nearest 0.6 × recommended, max the larger of min + 100 and the multiple of 10 nearest 1.7 × recommended |
| Pricing.SegmentPriceRange | src/main/java/com/homeride/backend/service/PricingService.java:80-93 | 30 ≤ min ≤ recommended ≤ max, max − min ≥ 50, all three multiples of 10; min is the larger of 30 and the multiple of 10 nearest 0.5 × recommended, max the larger of min + 50 and the multiple of 10 nearest 2.0 × recommended |
| Pricing.AtLeastNearest10Unique | src/main/java/com/homeride/backend/service/PricingService.java:61-93 | the band-bound description fixes the bound: two multiples of 10 that both fit it for the same floor and scaled price are equal |
| Pricing.Nearest10Unique | src/main/java/com/homeride/backend/service/PricingService.java:53-55 | there is one multiple of 10 within 5 (ties up) of a value, so rounding to 10 has a single possible result |
| RouteMatching.BuildFullPath | src/main/java/com/homeride/backend/service/RideRequestService.java:305-313 | the path has stopovers + 2 points: origin first, destination last, stopover i at i + 1 |
| RouteMatching.Normalize | src/main/java/com/homeride/backend/service/RideRequestService.java:351-360 | null becomes the empty text; otherwise the text is lower-cased, trimmed, its whitespace runs become one space, then ", india", ", maharashtra", ", tamil nadu" and ", andhra pradesh" are each removed in one left-to-right pass, in that order |
| RouteMatching.ExtractMainCity | src/main/java/com/homeride/backend/service/RideRequestService.java:362-367 | null or empty gives the empty text; otherwise the trimmed part of the normalised text before its first comma when that has at least 3 code units, else the whole normalised text |
| RouteMatching.MatchesLocation | src/main/java/com/homeride/backend/service/RideRequestService.java:315-349 | a non-blank search matches when the point tier, the city tier (contained text longer than 2 code units) or the main-city tier (search main city of at least 3 code units) holds |
| RouteMatching.MatchesExact | src/main/java/com/homeride/backend/service/RideRequestService.java:315-333 | a null or blank search matches nothing; a search whose non-empty normalised form equals the point's or city's matches |
| RouteMatching.MatchesCaseInsensitive | src/main/java/com/homeride/backend/service/RideRequestService.java:320-322 | lower-casing the route point and the search does not change the match |
| RouteMatching.ShortSearchCityTierIsExact | src/main/java/com/homeride/backend/service/RideRequestService.java:332-336 | with a search of at most 2 UTF-16 code units the city tier fires only on equality |
| RouteMatching.MainCityTierShape | src/main/java/com/homeride/backend/service/RideRequestService.java:342-346 | the main-city tier needs a search main city of at least 3 UTF-16 code units and only looks for it inside the point |
| RouteMatching.SuffixOnlyNormalizesToEmpty | src/main/java/com/homeride/backend/service/RideRequestService.java:351-360 | ", India" is not blank yet normalises to the empty string |
| RouteMatching.SuffixOnlySearchMatchesEveryPoint | src/main/java/com/homeride/backend/service/RideRequestService.java:315-333 | so the search ", India" matches every route point whose point is not empty |
| RouteMatching.CanAccommodateJourney | src/main/java/com/homeride/backend/service/RideRequestService.java:270-303 | the first point matching the origin is followed by some point matching the destination |
| RouteMatching.JourneyIff | src/main/java/com/homeride/backend/service/RideRequestService.java:270-303 | the journey check holds iff some point matching the origin comes strictly before some point matching the destination |
| RouteMatching.ReverseDirectionRejected | src/main/java/com/homeride/backend/service/RideRequestService.java:276-302 | when every destination match is at or before the only origin match, the journey is refused |
| RouteMatching.JoinScanIsFirstMatches | src/main/java/com/homeride/backend/service/RideRequestService.java:415-424 | the one-pass scan yields the first pickup match, then the first drop-off match at or after it |
| RouteMatching.ResolveSegment | src/main/java/com/homeride/backend/service/RideRequestService.java:415-427 | an accepted segment is a pair of path indices with the pickup strictly before the drop-off |
| RouteMatching.ResolveSegmentSuccess | src/main/java/com/homeride/backend/service/RideRequestService.java:415-427 | an accepted segment has the first pickup match before the first later drop-off match, and passes the journey check |
| RouteMatching.JoinStricterThanJourney | src/main/java/com/homeride/backend/service/RideRequestService.java:415-427 | when the first pickup match also matches the drop-off, the join is refused though the journey check accepts |
| RouteMatching.ResolveSegmentNotOnRoute | src/main/java/com/homeride/backend/service/RideRequestService.java:426 | a pickup or drop-off text matching no point is refused as off-route |
| RideJoin.CheckJoin | src/main/java/com/homeride/backend/service/RideRequestService.java:401-439 | the join is accepted iff a price is given, both texts are non-blank, seats ≥ 1, the segment resolves, the type is OFFERED ignoring case, the gender rule passes, enough seats are free, the passenger is not the driver and has not joined |
| RideJoin.Book | src/main/java/com/homeride/backend/service/RideRequestService.java:441-460 | the booking stores the matched path points, not the typed texts; only that ride changes; RIDE_JOINED goes to the driver, then RIDE_BOOKED to the passenger, both unread and linking to the ride |
| RideJoin.JoinRide | src/main/java/com/homeride/backend/service/RideRequestService.java:391-460 | an unknown ride is refused before an unknown passenger; otherwise the join fails with the validation's error, or succeeds exactly when it passes, and then books the matched segment and sends both notifications |
| RideJoin.JoinNeverOverbooks | src/main/java/com/homeride/backend/service/RideRequestService.java:431-436 | after an accepted join the booked seats (missing counts as 1) grow by the seats requested and stay within capacity |
| RideJoin.JoinTwiceRefused | src/main/java/com/homeride/backend/service/RideRequestService.java:439 | after a successful join, any further join of that ride by the same e-mail is refused |
| RideJoin.SearchRides | src/main/java/com/homeride/backend/service/RideRequestService.java:221-256 | the search keeps upcoming OFFERED rides, then those passing the date, seat and journey tests, never returning more rides than the store holds |
| RideJoin.StagesAreListed | src/main/java/com/homeride/backend/service/RideRequestService.java:221-256 | a ride passes both filter stages exactly when the single listing predicate holds of it |
| RideJoin.SearchIsListed | src/main/java/com/homeride/backend/service/RideRequestService.java:221-256 | the search equals one filter of the store by a single listing predicate: the rides typed OFFERED that depart after now and pass each test whose search field is given: the date, free seats for a positive count, and the journey when both texts are non-blank |
| RideJoin.SearchInStoreOrder | src/main/java/com/homeride/backend/service/RideRequestService.java:221-256 | the listed rides are read from the store at strictly increasing positions, each listed ride passes the listing test, and every store ride passing it is listed |
| RideJoin.JoinedRideWasListed | src/main/java/com/homeride/backend/service/RideRequestService.java:239-254 | a ride someone joined, if typed exactly OFFERED and still ahead, is listed by a search with the same pickup and drop-off texts and seat count |
| RideJoin.ListedSeatsSatisfyJoin | src/main/java/com/homeride/backend/service/RideRequestService.java:239-247 | a listed ride for n passengers is never refused for seats when n seats are requested |
| RideJoin.LowerCaseOfferHiddenFromSearch | src/main/java/com/homeride/backend/service/RideRequestService.java:222-224 | a ride typed "offered" passes the join's type check but is never listed |
| RideOffer.KeptStops | src/main/java/com/homeride/backend/service/RideRequestService.java:80-101 | exactly the stopovers with a non-blank point are kept, and none when the list is missing |
| RideOffer.KeptStopsInOrder | src/main/java/com/homeride/backend/service/RideRequestService.java:80-101 | the kept stopovers are the input's non-blank ones at strictly increasing positions, each kept once, none with a blank point, and none with a point left out |
| RideOffer.TotalPrice | src/main/java/com/homeride/backend/service/RideRequestService.java:130-136 | the stored price lies in the total band: the proposal if inside it, otherwise the recommended price |
| RideOffer.PricePerKm | src/main/java/com/homeride/backend/service/RideRequestService.java:140-144 | price per km times the direct distance gives the price; 0 for a non-positive distance |
| RideOffer.SegmentDistances | src/main/java/com/homeride/backend/service/RideRequestService.java:153-167 | one distance per segment: the provider's first legs, or an even split of the direct distance when there are none; too few legs is an error |
| RideOffer.SegmentPrice | src/main/java/com/homeride/backend/service/RideRequestService.java:165-185 | a segment price lies in its segment band and is a multiple of 10; without a proposal it is the recommended price; with one it is within 5 (ties up) of the proposal clamped into the band |
| RideOffer.SegmentProposalHonoured | src/main/java/com/homeride/backend/service/RideRequestService.java:174-180 | an in-band multiple of 10 is kept, a proposal below the band becomes its min, one above becomes its max |
| RideOffer.SegmentPricePinned | src/main/java/com/homeride/backend/service/RideRequestService.java:174-178 | the segment price is the one multiple of 10 within 5 of the clamped proposal, so an in-band 123 becomes 120 |
| RideOffer.SegmentPrices | src/main/java/com/homeride/backend/service/RideRequestService.java:165-185 | one price per segment, each in its own band and a multiple of 10, the recommended price where no proposal is given and otherwise the clamped proposal rounded to 10 |
| RideOffer.CreateRideOffer | src/main/java/com/homeride/backend/service/RideRequestService.java:60-200 | an OFFERED ride with no participants, the request's origin, destination, cities, date, capacity and gender preference and the kept stops is appended; its price is the reconciled total price (in the total band), its price per km is that price over the direct distance, its segment prices are those of the segment distances and proposals; RIDE_OFFERED goes to the driver |
| RideOffer.OfferSegmentsPriced | src/main/java/com/homeride/backend/service/RideRequestService.java:166-188 | every segment of a created offer is priced inside the band for its own distance |
| RideOffer.UnpricedOfferIsRecommended | src/main/java/com/homeride/backend/service/RideRequestService.java:130-136 | with no total and no segment proposals the offer carries the recommended total and every segment's recommended price |
| RideOffer.NewOfferIsListed | src/main/java/com/homeride/backend/service/RideRequestService.java:221-256 | a new future offer is found by a search for its own origin and destination, for any count up to capacity |
| JwtFilter.IsPublicEndpoint | src/main/java/com/homeride/backend/filter/JwtAuthenticationFilter.java:59-81 | a path is public when it starts with one of the public prefixes or is exactly the travel-info path |
| JwtFilter.FilterRequest | src/main/java/com/homeride/backend/filter/JwtAuthenticationFilter.java:27-57 | public paths skip header inspection; a token is handed on iff the header starts with "Bearer ", and it is the rest of the header |
| JwtFilter.BearerRoundTrip | src/main/java/com/homeride/backend/filter/JwtAuthenticationFilter.java:42-43 | the token after "Bearer " is exactly the one handed on |
| JwtFilter.PrefixesAreRaw | src/main/java/com/homeride/backend/filter/JwtAuthenticationFilter.java:61-65 | prefixes match loosely: "/wsx" and "/healthz/private" are public |
| JwtFilter.RidesStayProtected | src/main/java/com/homeride/backend/filter/JwtAuthenticationFilter.java:59-81 | a path under "/api/r" is public iff it is exactly "/api/rides/travel-info" |
| Chatbot.IsSupportRequest | src/main/java/com/homeride/backend/service/ChatbotService.java:449-462 | the lower-cased message mentions one of the support phrases, with `&&` binding tighter than `||` |
| Chatbot.SupportRequestSimplified | src/main/java/com/homeride/backend/service/ChatbotService.java:449-462 | a support request is one mentioning support, customer care, customer servic, complaint, contact us, reach out, or help with contact, reach or issue |
| Chatbot.AnalyzeQuestion | src/main/java/com/homeride/backend/service/ChatbotService.java:127-158 | the types are tried in priority order on the lower-cased message: GENERAL_KNOWLEDGE iff the general test holds; RIDE_RELATED iff not general and a ride keyword is present; ACCOUNT_RELATED iff neither of those and an account keyword is present; FEATURE_RELATED iff none of those and a feature keyword is present; AMBIGUOUS iff none of the four |
| Chatbot.DistanceQuestionIsGeneral | src/main/java/com/homeride/backend/service/ChatbotService.java:131-133 | "distance between" without "my ride" or "my journey" is general knowledge |
| Chatbot.MyBlocksQuestionWords | src/main/java/com/homeride/backend/service/ChatbotService.java:131-136 | a message mentioning "my" and not "distance between" is never general knowledge |
| Chatbot.RideWordWins | src/main/java/com/homeride/backend/service/ChatbotService.java:134-143 | a message containing "ride" and no distance question is ride-related |
| Chatbot.MultiLineNeverQuestionWord | src/main/java/com/homeride/backend/service/ChatbotService.java:134 | a message containing a line break never passes the question-word pattern |
| Chatbot.AnalyzeIgnoresCase | src/main/java/com/homeride/backend/service/ChatbotService.java:128 | classification and the support test ignore letter case |
| Chatbot.ContextFor | src/main/java/com/homeride/backend/service/ChatbotService.java:160-183 | general and feature questions get the minimal context, account questions the account context, the rest the comprehensive one |
| Chatbot.Respond | src/main/java/com/homeride/backend/service/ChatbotService.java:55-89 | the reply is MODEL_UNAVAILABLE iff there is no client, UNIDENTIFIED_USER iff there is a client and a blank e-mail, a support redirect iff both are present and the trimmed message is a support request; the model is asked iff none of these, with the trimmed message's type and that type's context |
| Chatbot.SupportNeverReachesModel | src/main/java/com/homeride/backend/service/ChatbotService.java:74-82 | any message mentioning "support" in any case from an identified user is redirected |
| Notifications.CreateNotification | src/main/java/com/homeride/backend/service/NotificationService.java:18-26 | exactly one unread record with the given user, message, link, type and ride is appended |
| Notifications.CreateOrUpdateChatNotification | src/main/java/com/homeride/backend/service/NotificationService.java:28-40 | as written: with an unread chat row for the user and ride the store is left exactly as it was, because the timestamp it sets is a column excluded from updates (model/Notification.java:29-31); otherwise one CHAT_MESSAGE row is added |
| Notifications.ChatBumpIsLost | src/main/java/com/homeride/backend/service/NotificationService.java:33-35 | an unread chat row created at time 0 still carries time 0 after a new message at time 5 |
| Notifications.CreateOrBumpChatNotification | src/main/java/com/homeride/backend/service/NotificationService.java:28-40 | as intended: an existing unread chat row for the user and ride gets the new timestamp and nothing else changes; otherwise one CHAT_MESSAGE row is added |
| Notifications.ChatVersionsDifferOnlyInTimestamp | src/main/java/com/homeride/backend/service/NotificationService.java:28-40 | the written and the intended store agree row for row on every field but the creation time |
| Notifications.ChatNotificationPreservesUniqueness | src/main/java/com/homeride/backend/service/NotificationService.java:28-40 | in both versions, at most one unread chat row per user and ride is preserved, and afterwards one exists for this pair |
| Ratings.SubmitRating | src/main/java/com/homeride/backend/service/RatingService.java:34-69 | an unknown rater, then an unknown ratee, then an unknown ride is refused with its own error; when all three are found the rating succeeds iff the (ride, rater, ratee) triple is new, appending exactly the one rating and one RATING_RECEIVED for the ratee |
| Ratings.SubmitTwiceRefused | src/main/java/com/homeride/backend/service/RatingService.java:44-46 | resubmitting for the same ride and ratee is refused |
| Ratings.AverageRating | src/main/java/com/homeride/backend/service/RatingService.java:93-105 | null iff the ratee has no ratings, otherwise the mean of the scores received |
| Ratings.Mean | src/main/java/com/homeride/backend/service/RatingService.java:100-104 | the mean of a non-empty score list lies between its lowest and highest score |
| Ratings.DeleteAllRatingsForRide | src/main/java/com/homeride/backend/service/RatingService.java:71-73 | exactly the ride's ratings are removed; all others stay |
| Ratings.DeleteRatingsForParticipantOnRide | src/main/java/com/homeride/backend/service/RatingService.java:76-79 | every rating left is from the store and neither given nor received by the participant on that ride |
| Ratings.DeleteForParticipantExact | src/main/java/com/homeride/backend/service/RatingService.java:76-79 | the two deletions remove exactly the ride's ratings where the participant is rater or ratee |
| Employees.Register | src/main/java/com/homeride/backend/service/EmployeeService.java:46-73 | registration succeeds iff the lower-cased e-mail is free, the password is non-null with at least 8 UTF-16 code units and the name is non-null; a taken e-mail is refused before a bad password, and that before a null name, which the NOT NULL column rejects on save; the new employee has the given id, the lower-cased e-mail, the encoded password, role EMPLOYEE and credit 0 |
| Employees.EmojiPasswordAccepted | src/main/java/com/homeride/backend/service/EmployeeService.java:55-57 | a password of four emoji, eight code units, is accepted for a free e-mail |
| Employees.RegisterKeepsEmailsUnique | src/main/java/com/homeride/backend/service/EmployeeService.java:48-53 | registration keeps e-mails unique and lower-case |
| Employees.RegisterTwiceRefused | src/main/java/com/homeride/backend/service/EmployeeService.java:51-53 | the same address in any letter case cannot be registered twice |
| Employees.UpdateUserProfile | src/main/java/com/homeride/backend/service/EmployeeService.java:76-86 | the name changes only to a non-null non-empty one, the phone to any non-null one, and nothing else changes |
| Employees.RemoveProfilePicture | src/main/java/com/homeride/backend/service/EmployeeService.java:96-100 | only the picture URL becomes null |
| Employees.UpdateUserAsAdmin | src/main/java/com/homeride/backend/service/EmployeeService.java:109-119 | role and credit are each replaced only when given, and nothing else changes |
| Employees.UpdatesKeepEmails | src/main/java/com/homeride/backend/service/EmployeeService.java:76-119 | the updates keep e-mails unique and lower-case |
| Employees.LoadUserByUsername | src/main/java/com/homeride/backend/service/EmployeeService.java:102-107 | the details carry the e-mail, the stored hash and the single authority "ROLE_" + role |
| Employees.RegisteredUserIsEmployee | src/main/java/com/homeride/backend/service/EmployeeService.java:67 | a newly registered user logs in with the authority ROLE_EMPLOYEE |
| RideCancellation.CancelAsPassenger | src/main/java/com/homeride/backend/service/RideCancellationService.java:33-64 | refused iff no booking's e-mail equals the user's ignoring case; otherwise a matching booking is removed, that passenger's ratings on the ride are deleted and the driver gets PASSENGER_CANCELLED |
| RideCancellation.PassengerCancelFreesSeats | src/main/java/com/homeride/backend/service/RideCancellationService.java:44-48 | exactly the removed booking's seats are freed, the other bookings and rides stay as they were |
| RideCancellation.PassengerCancelKeepsOtherRatings | src/main/java/com/homeride/backend/service/RideCancellationService.java:51 | ratings of other rides, or between other people, survive |
| RideCancellation.CancelAsDriver | src/main/java/com/homeride/backend/service/RideCancellationService.java:66-95 | refused iff the driver's e-mail differs ignoring case; otherwise the ride and its ratings go and each passenger gets one notification |
| RideCancellation.NotifyPassengers | src/main/java/com/homeride/backend/service/RideCancellationService.java:80-91 | existing notifications are kept, and exactly one unread RIDE_CANCELLED with link /dashboard and the ride's id is added for each booking, addressed to that booking's passenger |
| RideCancellation.DriverCancelRatingsExact | src/main/java/com/homeride/backend/service/RideCancellationService.java:76-77 | after a driver cancels, no rating of the ride is left and every rating of another ride is kept |
| RideCancellation.DriverCancelRemovesRide | src/main/java/com/homeride/backend/service/RideCancellationService.java:94 | with unique ride ids the cancelled ride can no longer be found |
| Entities.BookedSeatsAppend | src/main/java/com/homeride/backend/service/RideRequestService.java:431-433 | booked seats are additive: appending a booking adds its seats |
| Entities.BookedSeatsRemove | src/main/java/com/homeride/backend/service/RideRequestService.java:431-433 | removing a booking frees exactly its seats |
| JavaText.JavaLength | src/main/java/com/homeride/backend/service/RideRequestService.java:334-343 | the UTF-16 length lies between the character count and twice it, and equals the count iff no character lies beyond U+FFFF |
| JavaText.JavaLengthContained | src/main/java/com/homeride/backend/service/RideRequestService.java:334-335 | text contained in another is no longer in code units, which is what keeps the city tier's length guard one-sided |
| JavaText.IntValue | src/main/java/com/homeride/backend/service/RideRequestService.java:402 | the seat count read by `intValue()` is a 32-bit int congruent to the number modulo 2^32, and the number itself when it fits |
| JavaText.IntValueWraps | src/main/java/com/homeride/backend/service/RideRequestService.java:402 | 2^32 + 1 seats read as 1 seat, and 2^31 as −2^31 |

## Left out

- The maps provider is not modelled; its direct distance and per-leg distances are inputs. Without an API key it falls back to 180 km and to no legs (src/main/java/com/homeride/backend/service/GoogleMapsService.java:30, 44, 67).
- Geocoding of stopovers is not modelled. It only sets coordinates, which no modelled rule reads.
- Route polyline, duration and stored route distance are not modelled for the same reason.
- The Gemini call, the prompt texts, the reply extraction and the context builders' repository reads are not modelled. `Chatbot.Respond` ends at the decision to ask the model.
- `Chatbot.AsksGeneralQuestion` is the regex at ChatbotService.java:134 with ASCII word characters (`[A-Za-z0-9_]`) for `\b` and the Java line terminators excluded by `.`. Full Java regex semantics, including Unicode-aware boundaries on older JDKs, are not modelled.
- `toLowerCase` and `equalsIgnoreCase` are modelled on ASCII letters only. `trim` and `\s` follow Java exactly on code points.
- Prices are reals, so IEEE-754 rounding of 2.2, 1.8 and the `.5` ties is not modelled.
- Token parsing and validation (JwtUtil) and the security context are outside the model.
- The password encoder is a function parameter.
- Logging, the e-mail service, file storage, controllers, configuration and WebSocket broadcasting are outside the model.
- Repository queries are sequence scans, and new ids are inputs.
- The stopover geocoding failure branch and `deleteRide` are outside the model.
- RideJoin.JoinRide: a non-numeric `numberOfSeats` falls back to one seat, as absent does. A whole number keeps its low 32 bits. A fractional one, which Java truncates and saturates, is not modelled.
- Ratings.Mean: the identity mean × count = sum is not proved, because the solver's non-linear real arithmetic did not close it; only the bounds between the lowest and highest score are.
- Ratings.AverageRating: the proved statement is that the average is the mean of the received scores and lies between their extremes. The identity mean × count = sum is not proved, because the solver's non-linear real arithmetic did not close it.
- RideJoin.SearchRides: the date test takes the parsed search date and the calendar-date function as inputs. Date parsing and `LocalDateTime.now()` are not modelled.
- RideJoin.SearchRides: the average rating attached to each driver is not modelled.
- Employees.Register: a null e-mail, which Java fails on while lower-casing it, is not modelled; the e-mail is a string.
- Employees.Register: it states that the stored password is the encoder's output. That this differs from the raw password depends on the encoder and is not claimed.
- Chatbot.Respond: a null message, which Java fails on while trimming, is not modelled; the message is a string.
- Entities.Ride: the vehicle capacity is never null, and a missing stopover list is the empty list.
- Entities.Ride: the status "PENDING", the vehicle model and the driver's note that `createRideOffer` sets (src/main/java/com/homeride/backend/service/RideRequestService.java:70, 73, 76) are not modelled; no modelled rule reads them.
- RideCancellation.CancelAsPassenger: a ride's bookings are a Java `HashSet`, modelled as a sequence (model/RideRequest.java:91). The model removes the first matching booking in sequence order; the source takes whichever the set yields first. This is immaterial: e-mails are unique and lower-cased and a passenger cannot join twice, so at most one booking matches.
- RideCancellation.NotifyPassengers: the order of the cancellation notices follows the sequence; the source's order is the set's iteration order, which is unspecified.
- RouteMatching.MatchesLocation: a null route point is not representable. The path builder never produces one.

## Findings

| source | as written | input that shows it | evidently intended | confidence | as-written member | corrected member |
|---|---|---|---|---|---|---|
| src/main/java/com/homeride/backend/service/NotificationService.java:33-35 | a repeated chat message sets `createdAt` on the existing unread row and saves it, but the column is `@CreationTimestamp` with `updatable = false` (model/Notification.java:29-31), so the new time is never written | an unread chat row for user 1 and ride 7 created at time 0, then a new message at time 5: the row still says 0 | the row's creation time moves to the time of the new message, so the chat notification rises to the top | not executed | Notifications.CreateOrUpdateChatNotification, Notifications.ChatBumpIsLost | Notifications.CreateOrBumpChatNotification |
