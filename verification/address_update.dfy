/** The address-update page a delivery rider sends to a customer: a link
    token is verified, then the customer picks a district, drops a pin on the
    map and describes the address, which is sent to the back office.

    The three requests (verification, district list, update) are given by
    their outcomes; the rider notification that follows a successful update
    is returned as a request and its outcome is not an input, since the page
    ignores it. */
module AddressUpdate {
  import opened Values
  import opened JsString

  const InvalidLink := "Lien invalide. Veuillez demander un nouveau lien au livreur."
  const VerificationFailed := "Vérification échouée"
  const DistrictsUnavailable := "Impossible de charger les districts"
  const SelectPosition := "Veuillez sélectionner une position sur la carte"
  const GeolocationUnsupported := "La géolocalisation n'est pas supportée par votre navigateur"
  const PositionUnavailable := "Impossible d'obtenir votre position. Veuillez cliquer sur la carte."
  const AddressRequired := "La description de l'adresse est requise"
  const AddressTooShort := "Au moins 5 caractères requis"
  const AddressTooLong := "Maximum 200 caractères"
  const UpdateFailed := "Échec de la mise à jour"

  const MinAddressLength := 5
  const MaxAddressLength := 200

  /** The page's steps: 0 before the link is verified, then district, pin,
      address, and 4 for "done". */
  const StepNone := 0
  const StepDistrict := 1
  const StepPin := 2
  const StepAddress := 3
  const StepDone := 4

  /** A district of the rider backend's list. */
  datatype Area = Area(name: string, cityName: string, latitude: string, longitude: string)

  /** The verified order the link belongs to. */
  datatype OrderInfo = OrderInfo(orderNo: Maybe<string>)

  datatype AddressState = AddressState(
    token: Maybe<string>,
    step: int,
    loading: bool,
    error: Maybe<string>,
    orderInfo: Maybe<OrderInfo>,
    districts: Maybe<seq<Area>>,
    selected: Maybe<Area>,
    lat: Maybe<real>,
    lng: Maybe<real>,
    address: string,
    addressError: string,
    submitting: bool,
    pendingLocations: nat)

  /** The state the page starts with, for the link's `token` parameter.
      `pendingLocations` counts position requests whose callback has not
      fired yet. */
  function Fresh(token: Maybe<string>): AddressState {
    AddressState(token, StepNone, true, Null, Null, Some([]), Null, Null, Null, "", "", false, 0)
  }

  // ---------------------------------------------------------------------------
  // Loading the page
  // ---------------------------------------------------------------------------

  /** How the verification request ended: a response that is not `ok` (with
      the `detail` of its body), a verified order body, or a thrown error. */
  datatype VerifyOutcome = VerifyRejected(detail: Maybe<string>) | Verified(order: Maybe<OrderInfo>) | VerifyThrew(message: string)

  /** How the district-list request ended. */
  datatype DistrictsOutcome = DistrictsRejected | DistrictsLoaded(districts: Maybe<seq<Area>>) | DistrictsThrew(message: string)

  /** `initializePage`: verification first, then the district list; any
      failure becomes the page error and leaves the step where it was. */
  function Initialize(s: AddressState, verify: VerifyOutcome, districts: DistrictsOutcome): (r: AddressState)
    ensures !r.loading && r.token == s.token && r.address == s.address
    ensures verify.Verified? && districts.DistrictsLoaded? ==> r.step == StepDistrict
    ensures !(verify.Verified? && districts.DistrictsLoaded?) ==> r.step == s.step && r.error.Some?
    ensures verify.VerifyRejected? ==> r.error == Some(OrElse(verify.detail, Some(VerificationFailed)).value)
                                       && r.orderInfo == s.orderInfo
    ensures verify.VerifyThrew? ==> r.error == Some(verify.message) && r.orderInfo == s.orderInfo
    ensures verify.Verified? ==> r.orderInfo == verify.order
    ensures verify.Verified? && districts.DistrictsRejected? ==> r.error == Some(DistrictsUnavailable)
    ensures verify.Verified? && districts.DistrictsThrew? ==> r.error == Some(districts.message)
    ensures !(verify.Verified? && districts.DistrictsLoaded?) ==> r.districts == s.districts
    ensures verify.Verified? && districts.DistrictsLoaded? ==> r.error.Null? && r.districts == districts.districts
  {
    var s0 := s.(loading := true, error := Null);
    match verify
    case VerifyRejected(detail) => s0.(error := Some(OrElse(detail, Some(VerificationFailed)).value), loading := false)
    case VerifyThrew(message) => s0.(error := Some(message), loading := false)
    case Verified(order) =>
      var s1 := s0.(orderInfo := order);
      match districts
      case DistrictsRejected => s1.(error := Some(DistrictsUnavailable), loading := false)
      case DistrictsThrew(message) => s1.(error := Some(message), loading := false)
      case DistrictsLoaded(list) => s1.(districts := list, step := StepDistrict, loading := false)
  }

  /** The mount effect: a missing or empty token shows the invalid-link error
      and sends nothing; otherwise the page is initialised, starting with a
      verification request for the token. Returns the state and the token
      sent for verification, if any. */
  function Mount(token: Maybe<string>, verify: VerifyOutcome, districts: DistrictsOutcome): (r: (AddressState, Maybe<string>))
    ensures r.1.Some? <==> Truthy(token)
    ensures r.1.Some? ==> r.1 == token && r.0 == Initialize(Fresh(token), verify, districts)
    ensures r.1.Null? ==> r.0.error == Some(InvalidLink) && !r.0.loading && r.0.step == StepNone
  {
    if !Truthy(token) then (Fresh(token).(error := Some(InvalidLink), loading := false), Null)
    else (Initialize(Fresh(token), verify, districts), token)
  }

  /** A link without a token never reaches the district step from mounting,
      whatever the backend would have answered. */
  lemma MissingTokenStops(verify: VerifyOutcome, districts: DistrictsOutcome)
    ensures var r := Mount(Null, verify, districts);
            r.1.Null? && Screen(r.0) == ErrorScreen && r.0.error == Some(InvalidLink)
    ensures var r := Mount(Some(""), verify, districts);
            r.1.Null? && Screen(r.0) == ErrorScreen
  {
  }

  /** The token guard runs only on mounting: the retry button of the
      invalid-link screen runs the initialisation again without it, and a
      backend that accepts the request takes the page to the district step. */
  lemma RetryBypassesTokenGuard(areas: seq<Area>, order: OrderInfo)
    ensures var s := Mount(Null, VerifyRejected(Null), DistrictsRejected).0;
            var e := Retry(Verified(Some(order)), DistrictsLoaded(Some(areas)));
            Offered(s, e) && Next(s, e).step == StepDistrict && Screen(Next(s, e)) == Steps
  {
  }

  /** What the page renders. `Crashed` is the district step over a missing
      district list: `districts.map` throws while rendering and the page
      renders nothing from then on. */
  datatype View = LoadingScreen | ErrorScreen | Crashed | Steps

  function Screen(s: AddressState): View {
    if s.loading then LoadingScreen
    else if Truthy(s.error) then ErrorScreen
    else if s.step == StepDistrict && s.districts.Null? then Crashed
    else Steps
  }

  /** A district-list response without its `districts` field is stored as it
      is and takes the page to a district step that cannot render: no control
      is on screen afterwards. */
  lemma MissingDistrictListCrashes(s: AddressState, order: Maybe<OrderInfo>)
    ensures var r := Initialize(s, Verified(order), DistrictsLoaded(Null));
            Screen(r) == Crashed
            && forall e: Event :: !e.LocationResult? && !e.SubmitEnd? ==> !Offered(r, e)
  {
  }

  // ---------------------------------------------------------------------------
  // District, pin, back
  // ---------------------------------------------------------------------------

  /** `selectDistrict`: remembered, and on to the map. */
  function SelectDistrict(s: AddressState, d: Area): (r: AddressState)
    ensures r.selected == Some(d) && r.step == StepPin
    ensures r == s.(selected := Some(d), step := StepPin)
  {
    s.(selected := Some(d), step := StepPin)
  }

  /** `setCustomMarker(lat, lng)`: the pin's coordinates replace the previous
      ones; nothing else changes. */
  function SetCustomMarker(s: AddressState, lat: real, lng: real): (r: AddressState)
    ensures r.lat == Some(lat) && r.lng == Some(lng)
    ensures r.(lat := s.lat, lng := s.lng) == s
  {
    s.(lat := Some(lat), lng := Some(lng))
  }

  /** There is one pin: placing a second one leaves no trace of the first. */
  lemma SinglePin(s: AddressState, lat1: real, lng1: real, lat2: real, lng2: real)
    ensures SetCustomMarker(SetCustomMarker(s, lat1, lng1), lat2, lng2) == SetCustomMarker(s, lat2, lng2)
  {
  }

  /** A coordinate passes `confirmMarker`'s test: present and not zero. */
  predicate TruthyCoord(c: Maybe<real>) {
    c.Some? && c.value != 0.0
  }

  /** `confirmMarker`: on to the address only with both coordinates truthy,
      otherwise an alert and no change. */
  function ConfirmMarker(s: AddressState): (r: (AddressState, Maybe<string>))
    ensures TruthyCoord(s.lat) && TruthyCoord(s.lng) ==> r == (s.(step := StepAddress), Null)
    ensures !(TruthyCoord(s.lat) && TruthyCoord(s.lng)) ==> r == (s, Some(SelectPosition))
  {
    if !TruthyCoord(s.lat) || !TruthyCoord(s.lng) then (s, Some(SelectPosition))
    else (s.(step := StepAddress), Null)
  }

  /** A pin on the equator or the prime meridian is refused. */
  lemma ZeroCoordinateRefused(s: AddressState, lng: real)
    ensures ConfirmMarker(SetCustomMarker(s, 0.0, lng)).1 == Some(SelectPosition)
    ensures ConfirmMarker(SetCustomMarker(s, 0.0, lng)).0.step == s.step
  {
  }

  /** `goBack`: one step back, never below the district step. */
  function GoBack(step: int): (r: int)
    ensures step > StepDistrict ==> r == step - 1
    ensures step <= StepDistrict ==> r == step
  {
    if step > StepDistrict then step - 1 else step
  }

  function GoBackTimes(step: int, n: nat): int {
    if n == 0 then step else GoBackTimes(GoBack(step), n - 1)
  }

  /** Going back `n` times from step `k >= 1` lands on `max(1, k - n)`. */
  lemma {:induction false} GoBackBounded(k: int, n: nat)
    requires k >= StepDistrict
    ensures GoBackTimes(k, n) == if k - n >= StepDistrict then k - n else StepDistrict
  {
    if n > 0 {
      GoBackBounded(GoBack(k), n - 1);
    }
  }

  // ---------------------------------------------------------------------------
  // Submitting the address
  // ---------------------------------------------------------------------------

  /** The validation of the trimmed address, checks in order: required,
      minimum length, maximum length. */
  function AddressProblem(trimmed: string): (r: Maybe<string>)
    ensures r.Null? <==> MinAddressLength <= |trimmed| <= MaxAddressLength
    ensures r == Some(AddressRequired) <==> trimmed == []
    ensures r == Some(AddressTooShort) <==> 0 < |trimmed| < MinAddressLength
    ensures r == Some(AddressTooLong) <==> |trimmed| > MaxAddressLength
  {
    if trimmed == [] then Some(AddressRequired)
    else if |trimmed| < MinAddressLength then Some(AddressTooShort)
    else if |trimmed| > MaxAddressLength then Some(AddressTooLong)
    else Null
  }

  /** The body of the address update. */
  datatype UpdateRequest = UpdateRequest(orderNo: Maybe<string>, longitude: Maybe<real>, latitude: Maybe<real>, receiverAddress: string)

  /** The body of the rider notification. */
  datatype NotifyRequest = NotifyRequest(orderNo: Maybe<string>, newAddress: string, newLatitude: Maybe<real>, newLongitude: Maybe<real>)

  /** How the update request ended: a response that is not `ok`, a response
      body with its `success` and `message`, or a thrown error. */
  datatype UpdateOutcome = UpdateRejected(detail: Maybe<string>) | UpdateAnswered(success: bool, message: Maybe<string>) | UpdateThrew(error: string)

  /** Why a submission ended in an alert: an error with its message, or the
      TypeError of reading `order_no` without a verified order. */
  datatype SubmitFailure = Failure(message: string) | NoOrderInfo

  datatype SubmitResult = SubmitResult(
    state: AddressState,
    request: Maybe<UpdateRequest>,
    notify: Maybe<NotifyRequest>,
    failure: Maybe<SubmitFailure>)

  /** `submitAddress`. */
  function SubmitAddress(s: AddressState, outcome: UpdateOutcome): (r: SubmitResult)
    ensures !r.state.submitting
    ensures r.state.(step := s.step, addressError := s.addressError, submitting := s.submitting) == s
    ensures AddressProblem(Trim(s.address)).Some? ==>
              r.request.Null? && r.state == s.(addressError := AddressProblem(Trim(s.address)).value, submitting := false)
    ensures r.request.Some? <==> AddressProblem(Trim(s.address)).Null? && s.orderInfo.Some?
    ensures r.request.Some? ==>
              r.request.value == UpdateRequest(s.orderInfo.value.orderNo, s.lng, s.lat, Trim(s.address))
    ensures r.notify.Some? <==> r.request.Some? && outcome.UpdateAnswered? && outcome.success
    ensures r.notify.Some? ==> r.state.step == StepDone
                               && r.notify.value == NotifyRequest(r.request.value.orderNo, Trim(s.address), s.lat, s.lng)
    ensures r.notify.Null? ==> r.state.step == s.step
    ensures r.failure.Some? <==> AddressProblem(Trim(s.address)).Null? && r.notify.Null?
    ensures AddressProblem(Trim(s.address)).Null? && s.orderInfo.Null? ==> r.failure == Some(NoOrderInfo)
    ensures r.request.Some? && outcome.UpdateRejected? ==>
              r.failure == Some(Failure(OrElse(outcome.detail, Some(UpdateFailed)).value))
    ensures r.request.Some? && outcome.UpdateThrew? ==> r.failure == Some(Failure(outcome.error))
    ensures r.request.Some? && outcome.UpdateAnswered? && !outcome.success ==>
              r.failure == Some(Failure(OrElse(outcome.message, Some(UpdateFailed)).value))
  {
    var trimmed := Trim(s.address);
    var problem := AddressProblem(trimmed);
    if problem.Some? then
      SubmitResult(s.(addressError := problem.value, submitting := false), Null, Null, Null)
    else
      var done := s.(addressError := "", submitting := false);
      if s.orderInfo.Null? then SubmitResult(done, Null, Null, Some(NoOrderInfo))
      else
        var orderNo := s.orderInfo.value.orderNo;
        var request := UpdateRequest(orderNo, s.lng, s.lat, trimmed);
        match outcome
        case UpdateRejected(detail) =>
          SubmitResult(done, Some(request), Null, Some(Failure(OrElse(detail, Some(UpdateFailed)).value)))
        case UpdateThrew(error) => SubmitResult(done, Some(request), Null, Some(Failure(error)))
        case UpdateAnswered(success, message) =>
          if success then
            SubmitResult(done.(step := StepDone), Some(request), Some(NotifyRequest(orderNo, trimmed, s.lat, s.lng)), Null)
          else SubmitResult(done, Some(request), Null, Some(Failure(OrElse(message, Some(UpdateFailed)).value)))
  }

  const AlertPrefix := "Erreur: "
  const AlertSuffix := "\nVeuillez réessayer."

  /** The alert shown for a failed submission: the error's message between a
      fixed prefix and suffix, from which it can be read back. */
  function AlertText(message: string): (r: string)
    ensures |r| == |AlertPrefix| + |message| + |AlertSuffix|
    ensures StartsWith(r, AlertPrefix)
    ensures r[|AlertPrefix|..|AlertPrefix| + |message|] == message
  {
    AlertPrefix + message + AlertSuffix
  }

  /** A refusal that carries a message is alerted with exactly that message;
      one without a message falls back to the generic text. */
  lemma RefusedUpdateAlertsMessage(s: AddressState, message: Maybe<string>)
    requires AddressProblem(Trim(s.address)).Null? && s.orderInfo.Some?
    ensures var f := SubmitAddress(s, UpdateAnswered(false, message)).failure;
            && f.Some? && f.value.Failure?
            && AlertText(f.value.message)[|AlertPrefix|..|AlertPrefix| + |f.value.message|]
               == (if Truthy(message) then message.value else UpdateFailed)
  {
  }

  /** A submission reaches "done" exactly when the address passes validation,
      there is a verified order and the back office answers `success`. */
  lemma SubmitReachesDone(s: AddressState, outcome: UpdateOutcome)
    requires s.step == StepAddress
    ensures SubmitAddress(s, outcome).state.step == StepDone <==>
              AddressProblem(Trim(s.address)).Null? && s.orderInfo.Some? && outcome.UpdateAnswered? && outcome.success
  {
  }

  /** Any submitted address is trimmed and of allowed length. */
  lemma SubmittedAddressValid(s: AddressState, outcome: UpdateOutcome)
    requires SubmitAddress(s, outcome).request.Some?
    ensures var a := SubmitAddress(s, outcome).request.value.receiverAddress;
            && MinAddressLength <= |a| <= MaxAddressLength
            && Trim(a) == a
  {
    TrimIdempotent(s.address);
  }

  /** What the text area keeps of what was typed: it holds at most 200
      characters. */
  function TypeAddress(s: AddressState, typed: string): (r: AddressState)
    ensures |r.address| <= MaxAddressLength && StartsWith(typed, r.address)
    ensures |typed| <= MaxAddressLength ==> r.address == typed
    ensures r == s.(address := r.address)
  {
    s.(address := Take(typed, MaxAddressLength))
  }

  /** Through the text area, the maximum-length check never fires. */
  lemma TypedAddressNeverTooLong(s: AddressState, typed: string)
    ensures AddressProblem(Trim(TypeAddress(s, typed).address)) != Some(AddressTooLong)
  {
  }

  // ---------------------------------------------------------------------------
  // The page as a transition system
  // ---------------------------------------------------------------------------

  /** The outcome of a position request, delivered by its callback. */
  datatype GeoOutcome = GeoFailed | GeoFound(lat: real, lng: real)

  /** The page's events. A position request (`AskLocation`) and a submission
      (`SubmitBegin`) start asynchronous work whose completion
      (`LocationResult`, `SubmitEnd`) is a separate event that can arrive
      after the customer has moved on. */
  datatype Event =
    | Retry(verify: VerifyOutcome, districts: DistrictsOutcome)
    | PickDistrict(d: Area)
    | MapClick(lat: real, lng: real)
    | AskLocation(supported: bool)
    | LocationResult(geo: GeoOutcome)
    | Confirm
    | Back
    | Type(typed: string)
    | SubmitBegin
    | SubmitEnd(outcome: UpdateOutcome)

  /** The event's control is on screen: retry on the error screen; district
      buttons on step 1; map, location and confirm on step 2; the back button
      between steps 2 and 3; text area and (when not sending) submit on step
      3. A position callback fires only for a pending request, and a
      submission ends only while one is in flight; neither waits for a step. */
  predicate Offered(s: AddressState, e: Event) {
    match e
    case Retry(_, _) => Screen(s) == ErrorScreen
    case PickDistrict(d) => Screen(s) == Steps && s.step == StepDistrict && s.districts.Some? && d in s.districts.value
    case MapClick(_, _) => Screen(s) == Steps && s.step == StepPin
    case AskLocation(_) => Screen(s) == Steps && s.step == StepPin
    case LocationResult(_) => s.pendingLocations > 0
    case Confirm => Screen(s) == Steps && s.step == StepPin
    case Back => Screen(s) == Steps && StepDistrict < s.step < StepDone
    case Type(_) => Screen(s) == Steps && s.step == StepAddress
    case SubmitBegin => Screen(s) == Steps && s.step == StepAddress && !s.submitting
    case SubmitEnd(_) => s.submitting
  }

  /** `useCurrentLocation`: without geolocation support an alert and nothing
      else; otherwise a request is left pending. */
  function AskForLocation(s: AddressState, supported: bool): (r: AddressState)
    ensures supported ==> r == s.(pendingLocations := s.pendingLocations + 1)
    ensures !supported ==> r == s
  {
    if supported then s.(pendingLocations := s.pendingLocations + 1) else s
  }

  /** The position callback: a found position becomes the pin, whatever the
      step; a failure only alerts. */
  function OnLocation(s: AddressState, geo: GeoOutcome): (r: AddressState)
    requires s.pendingLocations > 0
    ensures r.pendingLocations == s.pendingLocations - 1
    ensures geo.GeoFound? ==> r.lat == Some(geo.lat) && r.lng == Some(geo.lng)
    ensures r.(lat := s.lat, lng := s.lng, pendingLocations := s.pendingLocations) == s
    ensures geo.GeoFailed? ==> r.lat == s.lat && r.lng == s.lng
  {
    var t := s.(pendingLocations := s.pendingLocations - 1);
    match geo
    case GeoFound(lat, lng) => SetCustomMarker(t, lat, lng)
    case GeoFailed => t
  }

  /** The synchronous start of `submitAddress`: validation; then, with a
      verified order, the request is in flight. Without one, reading
      `order_no` throws at once and the alert ends the submission. */
  function BeginSubmit(s: AddressState): (r: AddressState)
    ensures AddressProblem(Trim(s.address)).Some? ==> r == s.(addressError := AddressProblem(Trim(s.address)).value)
    ensures AddressProblem(Trim(s.address)).Null? ==>
              r == s.(addressError := "", submitting := s.orderInfo.Some?)
  {
    var problem := AddressProblem(Trim(s.address));
    if problem.Some? then s.(addressError := problem.value)
    else s.(addressError := "", submitting := s.orderInfo.Some?)
  }

  /** The end of an in-flight submission: an accepted update shows "done",
      whatever step the page is on by then; any other ending alerts; the
      submit button comes back either way. */
  function EndSubmit(s: AddressState, outcome: UpdateOutcome): (r: AddressState)
    ensures outcome.UpdateAnswered? && outcome.success ==> r == s.(step := StepDone, submitting := false)
    ensures !(outcome.UpdateAnswered? && outcome.success) ==> r == s.(submitting := false)
  {
    if outcome.UpdateAnswered? && outcome.success then s.(step := StepDone, submitting := false)
    else s.(submitting := false)
  }

  function Next(s: AddressState, e: Event): AddressState {
    if !Offered(s, e) then s
    else match e
      case Retry(verify, districts) => Initialize(s, verify, districts)
      case PickDistrict(d) => SelectDistrict(s, d)
      case MapClick(lat, lng) => SetCustomMarker(s, lat, lng)
      case AskLocation(supported) => AskForLocation(s, supported)
      case LocationResult(geo) => OnLocation(s, geo)
      case Confirm => ConfirmMarker(s).0
      case Back => s.(step := GoBack(s.step))
      case Type(typed) => TypeAddress(s, typed)
      case SubmitBegin => BeginSubmit(s)
      case SubmitEnd(outcome) => EndSubmit(s, outcome)
  }

  function Run(s: AddressState, events: seq<Event>): AddressState
    decreases |events|
  {
    if events == [] then s else Run(Next(s, events[0]), events[1..])
  }

  // One lemma per event the scenarios below use: an offered event does what
  // its handler says.

  lemma NextAskLocation(s: AddressState, supported: bool)
    requires Offered(s, AskLocation(supported))
    ensures Next(s, AskLocation(supported)) == AskForLocation(s, supported)
  {
  }

  lemma NextConfirm(s: AddressState)
    requires Offered(s, Confirm)
    ensures Next(s, Confirm) == ConfirmMarker(s).0
  {
  }

  lemma NextLocationResult(s: AddressState, geo: GeoOutcome)
    requires Offered(s, LocationResult(geo))
    ensures Next(s, LocationResult(geo)) == OnLocation(s, geo)
  {
  }

  lemma NextBack(s: AddressState)
    requires Offered(s, Back)
    ensures Next(s, Back) == s.(step := GoBack(s.step))
  {
  }

  lemma NextSubmitBegin(s: AddressState)
    requires Offered(s, SubmitBegin)
    ensures Next(s, SubmitBegin) == BeginSubmit(s)
  {
  }

  lemma NextSubmitEnd(s: AddressState, outcome: UpdateOutcome)
    ensures s.submitting ==> Next(s, SubmitEnd(outcome)) == EndSubmit(s, outcome)
    ensures !s.submitting ==> Next(s, SubmitEnd(outcome)) == s
  {
  }

  /** A submission that nothing interrupts does what `SubmitAddress` says:
      starting it and letting its request end gives the same state. */
  lemma SubmitInTwoSteps(s: AddressState, outcome: UpdateOutcome)
    requires Offered(s, SubmitBegin)
    ensures Next(Next(s, SubmitBegin), SubmitEnd(outcome)) == SubmitAddress(s, outcome).state
  {
    NextSubmitBegin(s);
    NextSubmitEnd(BeginSubmit(s), outcome);
  }

  /** The back button stays on screen while the update is in flight; going
      back and then hearing that the update was accepted still shows "done". */
  lemma BackDuringSubmitStillDone(s: AddressState, message: Maybe<string>)
    requires Offered(s, SubmitBegin) && AddressProblem(Trim(s.address)).Null? && s.orderInfo.Some?
    ensures var sending := Next(s, SubmitBegin);
            var back := Next(sending, Back);
            sending.submitting && back.step == StepPin
            && Next(back, SubmitEnd(UpdateAnswered(true, message))).step == StepDone
  {
    NextSubmitBegin(s);
    var sending := BeginSubmit(s);
    NextBack(sending);
    NextSubmitEnd(sending.(step := GoBack(sending.step)), UpdateAnswered(true, message));
  }

  /** A valid address with a verified order is sent with the pin the page
      holds at that moment. */
  lemma SubmitSendsPin(s: AddressState, outcome: UpdateOutcome)
    requires AddressProblem(Trim(s.address)).Null? && s.orderInfo.Some?
    ensures SubmitAddress(s, outcome).request == Some(UpdateRequest(s.orderInfo.value.orderNo, s.lng, s.lat, Trim(s.address)))
  {
  }

  /** A position request made on the map step can answer after the pin was
      confirmed: the answer replaces the confirmed pin on the address step,
      and a position on the equator is then sent with the update, although
      confirming it would have been refused. */
  lemma LateLocationReplacesConfirmedPin(s: AddressState, lng: real)
    requires Screen(s) == Steps && s.step == StepPin && TruthyCoord(s.lat) && TruthyCoord(s.lng)
    requires AddressProblem(Trim(s.address)).Null? && s.orderInfo.Some?
    ensures var r := Next(Next(Next(s, AskLocation(true)), Confirm), LocationResult(GeoFound(0.0, lng)));
            && r.step == StepAddress && r.lat == Some(0.0) && r.lng == Some(lng)
            && SubmitAddress(r, UpdateAnswered(true, Null)).request == Some(UpdateRequest(s.orderInfo.value.orderNo, Some(lng), Some(0.0), Trim(s.address)))
            && ConfirmMarker(r).1 == Some(SelectPosition)
  {
    NextAskLocation(s, true);
    var a := AskForLocation(s, true);
    NextConfirm(a);
    var c := ConfirmMarker(a).0;
    NextLocationResult(c, GeoFound(0.0, lng));
    var r := OnLocation(c, GeoFound(0.0, lng));
    assert r.address == s.address && r.orderInfo == s.orderInfo;
    assert r.lat == Some(0.0) && r.lng == Some(lng) && r.step == StepAddress;
    SubmitSendsPin(r, UpdateAnswered(true, Null));
    ZeroCoordinateRefused(c, lng);
  }

  /** What holds in every state the page reaches: the step is in range; past
      the link check there is no page error; a district is chosen from step 2
      on; both coordinates are set from step 3 on and while an update is in
      flight (a late position may have replaced the confirmed ones, so they
      need not be truthy); nothing is in flight once done; and the address
      fits the text area. */
  predicate Consistent(s: AddressState) {
    && StepNone <= s.step <= StepDone
    && (s.step > StepNone ==> s.error.Null? && !s.loading)
    && (s.step >= StepPin ==> s.selected.Some?)
    && (s.step >= StepAddress ==> s.lat.Some? && s.lng.Some?)
    && (s.submitting ==> s.selected.Some? && s.lat.Some? && s.lng.Some? && s.step > StepNone)
    && (s.step == StepDone ==> !s.submitting)
    && |s.address| <= MaxAddressLength
  }

  lemma NextConsistent(s: AddressState, e: Event)
    requires Consistent(s)
    ensures Consistent(Next(s, e))
  {
  }

  /** Every state reached after mounting is consistent. */
  lemma {:induction false} RunConsistent(s: AddressState, events: seq<Event>)
    requires Consistent(s)
    ensures Consistent(Run(s, events))
    decreases |events|
  {
    if events != [] {
      NextConsistent(s, events[0]);
      RunConsistent(Next(s, events[0]), events[1..]);
    }
  }

  lemma MountConsistent(token: Maybe<string>, verify: VerifyOutcome, districts: DistrictsOutcome)
    ensures Consistent(Mount(token, verify, districts).0)
  {
  }

  /** "Done" is reached only when a submission the back office accepted ends,
      and once reached the page stays done; only a late position answer can
      still move the (no longer shown) pin. */
  lemma DoneOnlyBySuccess(s: AddressState, e: Event)
    requires Consistent(s)
    ensures s.step != StepDone && Next(s, e).step == StepDone ==>
              e.SubmitEnd? && e.outcome.UpdateAnswered? && e.outcome.success
    ensures s.step == StepDone ==> Next(s, e).step == StepDone
    ensures s.step == StepDone && !e.LocationResult? ==> Next(s, e) == s
  {
  }

  /** Going back to the district list keeps the pin: choosing any district
      again lets the customer confirm at once. */
  lemma BackKeepsPin(s: AddressState, d: Area)
    requires Consistent(s) && Screen(s) == Steps && s.step == StepPin
    requires TruthyCoord(s.lat) && TruthyCoord(s.lng)
    requires s.districts.Some? && d in s.districts.value
    ensures var again := Next(Next(s, Back), PickDistrict(d));
            again.step == StepPin && again.lat == s.lat && again.lng == s.lng
            && Next(again, Confirm).step == StepAddress
  {
  }
}
