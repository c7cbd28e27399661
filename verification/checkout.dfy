/** The cash-on-delivery checkout page (src/pages/PaymentPage.jsx): a three-step
    flow — pick a district, place a delivery pin, fill in the contact form — and
    the construction of the order request when the form is submitted.

    React state is one immutable `CheckoutState`; each handler is a pure
    transition. Network calls become outcome parameters; geolocation becomes
    the `GeolocationFound` event. */
module Checkout {
  import opened Values
  import opened JsString
  import opened Entities
  import Conversions
  import Quantity

  const StepDistrict := 1
  const StepPin := 2
  const StepContact := 3

  /** Zoom before any district is chosen, and after one is. */
  const DefaultZoom := 12
  const DistrictZoom := 14

  const MaxPhoneDigits: nat := 10
  const MaxAddressLength: nat := 200
  const MinAddressLength: nat := 5

  /** Country calling code put in front of the phone numbers of an order. */
  const OrderCountryCode := "225"
  const PaymentMethod := "cod"
  const Currency := "FCFA"

  const NameRequired := "Le nom complet est requis"
  const PhoneRequired := "Le numéro de téléphone est requis"
  const WhatsappRequired := "Le numéro WhatsApp est requis"
  const NumberLength := "Le numéro doit contenir 10 chiffres"
  const AddressRequired := "La description de l'adresse est requise"
  const AddressTooShort := "Au moins 5 caractères requis"
  const GenericFailure := "Une erreur est survenue"
  const DistrictsFailure := "Impossible de charger la liste des districts"
  const PinMissing := "Veuillez cliquer sur la carte pour choisir un emplacement"

  // ---------------------------------------------------------------------------
  // District catalogue flattening
  // ---------------------------------------------------------------------------

  /** The districts of a city, an absent list read as empty. */
  function CityDistricts(c: City): seq<District> {
    if c.districts.Some? then c.districts.value else []
  }

  /** The entries one city contributes: each district tagged with the city. */
  function TagCity(c: City): (r: seq<FlatDistrict>)
    ensures |r| == |CityDistricts(c)|
    ensures forall k :: 0 <= k < |r| ==>
      r[k] == FlatDistrict(CityDistricts(c)[k], c.id, c.name, CityDistricts(c))
  {
    var ds := CityDistricts(c);
    seq(|ds|, k requires 0 <= k < |ds| => FlatDistrict(ds[k], c.id, c.name, ds))
  }

  /** `f` is one of the entries city `c` contributes. */
  predicate IsEntryOf(f: FlatDistrict, c: City) {
    && f.cityId == c.id
    && f.cityName == c.name
    && f.district in CityDistricts(c)
    && f.allCityDistricts == CityDistricts(c)
  }

  /** Number of districts over all cities (an absent list counts zero). */
  function TotalDistricts(cities: seq<City>): nat {
    if cities == [] then 0 else |CityDistricts(cities[0])| + TotalDistricts(cities[1..])
  }

  /** The flattened catalogue: every city's districts, in catalogue order. */
  function Flatten(cities: seq<City>): (r: seq<FlatDistrict>)
    ensures |r| == TotalDistricts(cities)
  {
    if cities == [] then [] else TagCity(cities[0]) + Flatten(cities[1..])
  }

  /** Every flattened entry carries the id, name and district list of a city of
      the catalogue, and is one of that city's districts. */
  lemma {:induction false} FlattenEntriesBelong(cities: seq<City>)
    ensures forall k :: 0 <= k < |Flatten(cities)| ==>
      exists i :: 0 <= i < |cities| && IsEntryOf(Flatten(cities)[k], cities[i])
  {
    if cities != [] {
      var head, rest := TagCity(cities[0]), Flatten(cities[1..]);
      assert Flatten(cities) == head + rest;
      FlattenEntriesBelong(cities[1..]);
      forall k | 0 <= k < |Flatten(cities)|
        ensures exists i :: 0 <= i < |cities| && IsEntryOf(Flatten(cities)[k], cities[i])
      {
        if k < |head| {
          assert Flatten(cities)[k] == head[k];
          assert IsEntryOf(Flatten(cities)[k], cities[0]);
        } else {
          assert Flatten(cities)[k] == rest[k - |head|];
          var i :| 0 <= i < |cities[1..]| && IsEntryOf(rest[k - |head|], cities[1..][i]);
          assert cities[1..][i] == cities[i + 1];
          assert IsEntryOf(Flatten(cities)[k], cities[i + 1]);
        }
      }
    } else {
      assert |Flatten(cities)| == 0;
    }
  }

  /** Flattening distributes over concatenation of catalogues. */
  lemma {:induction false} FlattenAppend(a: seq<City>, b: seq<City>)
    ensures Flatten(a + b) == Flatten(a) + Flatten(b)
    ensures TotalDistricts(a + b) == TotalDistricts(a) + TotalDistricts(b)
  {
    if a == [] {
      assert a + b == b;
    } else {
      assert (a + b)[0] == a[0];
      assert (a + b)[1..] == a[1..] + b;
      FlattenAppend(a[1..], b);
    }
  }

  /** Order is preserved: district `j` of city `i` sits right after the
      districts of the cities before it. */
  lemma FlattenPosition(cities: seq<City>, i: nat, j: nat)
    requires i < |cities| && j < |CityDistricts(cities[i])|
    ensures TotalDistricts(cities[..i]) + j < |Flatten(cities)|
    ensures Flatten(cities)[TotalDistricts(cities[..i]) + j]
         == FlatDistrict(CityDistricts(cities[i])[j], cities[i].id, cities[i].name, CityDistricts(cities[i]))
  {
    var before, after := cities[..i], cities[i + 1..];
    FlattenAround(cities, i);
    ElementInMiddle(Flatten(before), TagCity(cities[i]), Flatten(after), j);
  }

  /** The catalogue flattened around city `i`. */
  lemma FlattenAround(cities: seq<City>, i: nat)
    requires i < |cities|
    ensures Flatten(cities) == Flatten(cities[..i]) + (TagCity(cities[i]) + Flatten(cities[i + 1..]))
  {
    var before, tail := cities[..i], cities[i..];
    assert cities == before + tail;
    FlattenAppend(before, tail);
    assert tail[0] == cities[i] && tail[1..] == cities[i + 1..];
    assert Flatten(tail) == TagCity(cities[i]) + Flatten(cities[i + 1..]);
  }

  /** Index `j` of the middle part of `a + (b + c)`. */
  lemma ElementInMiddle<T>(a: seq<T>, b: seq<T>, c: seq<T>, j: nat)
    requires j < |b|
    ensures |a| + j < |a + (b + c)| && (a + (b + c))[|a| + j] == b[j]
  {
  }

  /** The page's nested `forEach`/`push` loop. */
  method FlattenDistricts(cities: seq<City>) returns (all: seq<FlatDistrict>)
    ensures all == Flatten(cities)
  {
    all := [];
    var i := 0;
    while i < |cities|
      invariant 0 <= i <= |cities|
      invariant all == Flatten(cities[..i])
    {
      all := PushDistricts(all, cities[i]);
      FlattenOneMore(cities, i);
      i := i + 1;
    }
    assert cities[..i] == cities;
  }

  /** The inner loop: one city's districts pushed, in order, after `all`. */
  method PushDistricts(all: seq<FlatDistrict>, city: City) returns (r: seq<FlatDistrict>)
    ensures r == all + TagCity(city)
  {
    r := all;
    if city.districts.Some? && |city.districts.value| > 0 {
      var ds := city.districts.value;
      var j := 0;
      while j < |ds|
        invariant 0 <= j <= |ds|
        invariant r == all + TagCity(city)[..j]
      {
        assert TagCity(city)[..j + 1] == TagCity(city)[..j] + [FlatDistrict(ds[j], city.id, city.name, ds)];
        r := r + [FlatDistrict(ds[j], city.id, city.name, ds)];
        j := j + 1;
      }
      assert TagCity(city)[..|ds|] == TagCity(city);
    } else {
      assert TagCity(city) == [];
      assert r == all + TagCity(city);
    }
  }

  lemma FlattenOneMore(cities: seq<City>, i: nat)
    requires i < |cities|
    ensures Flatten(cities[..i + 1]) == Flatten(cities[..i]) + TagCity(cities[i])
  {
    assert cities[..i + 1] == cities[..i] + [cities[i]];
    FlattenAppend(cities[..i], [cities[i]]);
    assert [cities[i]][1..] == [];
    assert Flatten([cities[i]]) == TagCity(cities[i]) + Flatten([]);
  }

  // ---------------------------------------------------------------------------
  // Contact form
  // ---------------------------------------------------------------------------

  datatype Field = FullName | Phone | Whatsapp | AddressDescription

  /** The `errors` object: a message per field; `''` means "cleared". */
  type Errors = map<Field, string>

  /** The field's error is displayed (present and non-empty). */
  predicate ErrorShown(errs: Errors, f: Field) {
    f in errs && errs[f] != ""
  }

  function FieldValue(info: ContactInfo, f: Field): string {
    match f
    case FullName => info.fullName
    case Phone => info.phone
    case Whatsapp => info.whatsapp
    case AddressDescription => info.addressDescription
  }

  function WithField(info: ContactInfo, f: Field, v: string): (r: ContactInfo)
    ensures FieldValue(r, f) == v
    ensures forall g :: g != f ==> FieldValue(r, g) == FieldValue(info, g)
  {
    match f
    case FullName => info.(fullName := v)
    case Phone => info.(phone := v)
    case Whatsapp => info.(whatsapp := v)
    case AddressDescription => info.(addressDescription := v)
  }

  /** A stored phone or WhatsApp value: digits only, at most ten of them. */
  predicate PhoneShaped(p: string) {
    AllDigits(p) && |p| <= MaxPhoneDigits
  }

  /** What a typed phone/WhatsApp value is turned into: its digits, cut to ten. */
  function SanitizePhone(typed: string): (r: string)
    ensures PhoneShaped(r)
    ensures StartsWith(StripNonDigits(typed), r)
    ensures |r| == if |StripNonDigits(typed)| <= MaxPhoneDigits then |StripNonDigits(typed)| else MaxPhoneDigits
  {
    Take(StripNonDigits(typed), MaxPhoneDigits)
  }

  /** Sanitising an already sanitised number changes nothing. */
  lemma SanitizePhoneIdempotent(typed: string)
    ensures SanitizePhone(SanitizePhone(typed)) == SanitizePhone(typed)
  {
  }

  /** Typing a character that is not a digit leaves the stored number as it was. */
  lemma SanitizeIgnoresNonDigit(typed: string, c: char)
    requires !IsDigit(c)
    ensures SanitizePhone(typed + [c]) == SanitizePhone(typed)
  {
    StripNonDigitsAppend(typed, [c]);
    assert StripNonDigits([c]) == [];
    assert StripNonDigits(typed) + [] == StripNonDigits(typed);
  }

  /** What a typed address is turned into: at most its first 200 characters. */
  function LimitAddress(typed: string): (r: string)
    ensures |r| <= MaxAddressLength
    ensures StartsWith(typed, r)
    ensures |typed| <= MaxAddressLength ==> r == typed
  {
    Take(typed, MaxAddressLength)
  }

  /** `handleInputChange(field, value)`. */
  function HandleInput(info: ContactInfo, errs: Errors, f: Field, typed: string): (r: (ContactInfo, Errors))
    ensures FieldValue(r.0, f) == StoredValue(f, typed)
    ensures forall g :: g != f ==> FieldValue(r.0, g) == FieldValue(info, g)
    ensures !ErrorShown(r.1, f)
    ensures r.1.Keys == errs.Keys
    ensures forall g :: g != f && g in errs ==> r.1[g] == errs[g]
    ensures !ErrorShown(errs, f) ==> r.1 == errs
  {
    var info' := WithField(info, f, StoredValue(f, typed));
    if ErrorShown(errs, f) then (info', errs[f := ""]) else (info', errs)
  }

  /** The value a field stores for what was typed into it. */
  function StoredValue(f: Field, typed: string): string {
    match f
    case Phone => SanitizePhone(typed)
    case Whatsapp => SanitizePhone(typed)
    case AddressDescription => LimitAddress(typed)
    case FullName => typed
  }

  /** A phone/WhatsApp entry passes the form check: not blank, ten characters. */
  predicate NumberAccepted(p: string) {
    Trim(p) != [] && |p| == MaxPhoneDigits
  }

  /** The whole form passes: the four conditions the submit button demands. */
  predicate FormValid(info: ContactInfo) {
    && Trim(info.fullName) != []
    && NumberAccepted(info.phone)
    && NumberAccepted(info.whatsapp)
    && |Trim(info.addressDescription)| >= MinAddressLength
  }

  /** The message `validateForm` records for one field, if any: "required"
      for a blank value, else the length rule. */
  function FieldError(info: ContactInfo, f: Field): Maybe<string> {
    match f
    case FullName => if Trim(info.fullName) == [] then Some(NameRequired) else Null
    case Phone =>
      if Trim(info.phone) == [] then Some(PhoneRequired)
      else if |info.phone| != MaxPhoneDigits then Some(NumberLength) else Null
    case Whatsapp =>
      if Trim(info.whatsapp) == [] then Some(WhatsappRequired)
      else if |info.whatsapp| != MaxPhoneDigits then Some(NumberLength) else Null
    case AddressDescription =>
      if Trim(info.addressDescription) == [] then Some(AddressRequired)
      else if |Trim(info.addressDescription)| < MinAddressLength then Some(AddressTooShort) else Null
  }

  /** The condition a field must meet to pass the form check. */
  predicate FieldPasses(info: ContactInfo, f: Field) {
    match f
    case FullName => Trim(info.fullName) != []
    case Phone => NumberAccepted(info.phone)
    case Whatsapp => NumberAccepted(info.whatsapp)
    case AddressDescription => |Trim(info.addressDescription)| >= MinAddressLength
  }

  /** `validateForm`: the new `errors` object records, for each field, the
      message that field's rule produces, and nothing for a field without one. */
  function ValidateForm(info: ContactInfo): (errs: Errors)
    ensures forall f :: f in errs <==> FieldError(info, f).Some?
    ensures forall f :: f in errs ==> errs[f] == FieldError(info, f).value
  {
    assert forall f: Field :: f.FullName? || f.Phone? || f.Whatsapp? || f.AddressDescription?;
    map f | f in AllFields && FieldError(info, f).Some? :: FieldError(info, f).value
  }

  const AllFields: set<Field> := {FullName, Phone, Whatsapp, AddressDescription}

  /** A field gets a message exactly when it fails its condition, and that
      message is never empty. */
  lemma FieldErrorIffFails(info: ContactInfo, f: Field)
    ensures FieldError(info, f).Some? <==> !FieldPasses(info, f)
    ensures FieldError(info, f).Some? ==> FieldError(info, f).value != ""
  {
  }

  /** The validator flags exactly the failing fields with visible messages,
      so it returns an empty object iff the form is valid. */
  lemma ValidateFormIffValid(info: ContactInfo)
    ensures forall f :: f in ValidateForm(info) <==> !FieldPasses(info, f)
    ensures forall f :: f in ValidateForm(info) ==> ErrorShown(ValidateForm(info), f)
    ensures ValidateForm(info) == map[] <==> FormValid(info)
  {
    var errs := ValidateForm(info);
    forall f ensures f in errs <==> !FieldPasses(info, f)
    ensures f in errs ==> ErrorShown(errs, f) {
      FieldErrorIffFails(info, f);
    }
    if !FormValid(info) {
      if !FieldPasses(info, FullName) { assert FullName in errs; }
      else if !FieldPasses(info, Phone) { assert Phone in errs; }
      else if !FieldPasses(info, Whatsapp) { assert Whatsapp in errs; }
      else { assert AddressDescription in errs; }
    } else {
      assert forall f :: f !in errs;
    }
  }

  lemma ValidateFormEmptyIff(info: ContactInfo)
    ensures ValidateForm(info) == map[] <==> FormValid(info)
  {
    ValidateFormIffValid(info);
  }

  /** Which message each failing field gets: "required" when the value is
      blank, otherwise the length rule. */
  lemma ValidateFormMessages(info: ContactInfo, f: Field)
    ensures f in ValidateForm(info) && Trim(FieldValue(info, f)) == [] ==> ValidateForm(info)[f] == RequiredMessage(f)
    ensures f in ValidateForm(info) && Trim(FieldValue(info, f)) != [] ==> LengthMessage(f) == Some(ValidateForm(info)[f])
  {
    var errs := ValidateForm(info);
    if f in errs {
      FieldMessage(info, f);
    }
  }

  /** A field's own message is "required" for a blank value and the length
      rule's message otherwise. */
  lemma FieldMessage(info: ContactInfo, f: Field)
    requires FieldError(info, f).Some?
    ensures Trim(FieldValue(info, f)) == [] ==> FieldError(info, f).value == RequiredMessage(f)
    ensures Trim(FieldValue(info, f)) != [] ==> LengthMessage(f) == Some(FieldError(info, f).value)
  {
    match f
    case FullName => NameMessage(info);
    case Phone => PhoneMessage(info);
    case Whatsapp => WhatsappMessage(info);
    case AddressDescription => AddressMessage(info);
  }

  /** The message of each field, one field at a time. */
  lemma NameMessage(info: ContactInfo)
    requires FieldError(info, FullName).Some?
    ensures FieldError(info, FullName).value == NameRequired
  {
  }

  lemma PhoneMessage(info: ContactInfo)
    requires FieldError(info, Phone).Some?
    ensures FieldError(info, Phone).value == if Trim(info.phone) == [] then PhoneRequired else NumberLength
  {
  }

  lemma WhatsappMessage(info: ContactInfo)
    requires FieldError(info, Whatsapp).Some?
    ensures FieldError(info, Whatsapp).value == if Trim(info.whatsapp) == [] then WhatsappRequired else NumberLength
  {
  }

  lemma AddressMessage(info: ContactInfo)
    requires FieldError(info, AddressDescription).Some?
    ensures FieldError(info, AddressDescription).value
              == if Trim(info.addressDescription) == [] then AddressRequired else AddressTooShort
  {
  }

  /** The "required" message of each field. */
  function RequiredMessage(f: Field): string {
    match f
    case FullName => NameRequired
    case Phone => PhoneRequired
    case Whatsapp => WhatsappRequired
    case AddressDescription => AddressRequired
  }

  /** The message of each field's length rule; the name has no such rule. */
  function LengthMessage(f: Field): Maybe<string> {
    match f
    case FullName => Null
    case Phone => Some(NumberLength)
    case Whatsapp => Some(NumberLength)
    case AddressDescription => Some(AddressTooShort)
  }

  /** For a number the input handler stored, "accepted" is "has ten digits". */
  lemma NumberAcceptedWhenShaped(p: string)
    requires PhoneShaped(p)
    ensures NumberAccepted(p) <==> |p| == MaxPhoneDigits
  {
    if |p| == MaxPhoneDigits {
      assert !IsWhitespace(p[0]);
    }
  }

  /** Typing into the phone field yields an accepted number exactly when what
      was typed holds at least ten digits. */
  lemma TypedPhoneAccepted(typed: string)
    ensures NumberAccepted(SanitizePhone(typed)) <==> |StripNonDigits(typed)| >= MaxPhoneDigits
  {
    NumberAcceptedWhenShaped(SanitizePhone(typed));
  }

  /** The address check: no stored address can be too long, and a valid one
      has a trimmed length between 5 and 200. */
  lemma StoredAddressBounds(typed: string)
    ensures |Trim(LimitAddress(typed))| <= MaxAddressLength
    ensures FieldError(ContactInfo("", "", "", LimitAddress(typed)), AddressDescription).Null? ==>
      MinAddressLength <= |Trim(LimitAddress(typed))| <= MaxAddressLength
  {
  }

  // ---------------------------------------------------------------------------
  // The step machine
  // ---------------------------------------------------------------------------

  /** Where the map is centred. `OfDistrict` holds the raw coordinates that
      `parseFloat` turns into the centre. */
  datatype MapCenter = DefaultCenter | OfDistrict(latitude: string, longitude: string) | At(pos: Coord)

  datatype CheckoutState = CheckoutState(
    step: int,
    districts: seq<FlatDistrict>,
    selected: Maybe<FlatDistrict>,
    center: MapCenter,
    zoom: int,
    marker: Maybe<Coord>,
    userLocation: Maybe<Coord>,
    info: ContactInfo,
    errors: Errors)

  /** The state the page mounts with. */
  function Initial(): (s: CheckoutState)
    ensures Consistent(s)
  {
    CheckoutState(StepDistrict, [], Null, DefaultCenter, DefaultZoom, Null, Null,
                  ContactInfo("", "", "", ""), map[])
  }

  /** Result of a backend fetch. */
  datatype Fetched<T> = Loaded(value: T) | FetchFailed

  datatype Event =
    | DistrictsFetched(cities: Fetched<seq<City>>)
    | SelectDistrict(d: FlatDistrict)
    | GeolocationFound(pos: Coord)
    | MapClick(pos: Coord)
    | UseCurrentLocation
    | ConfirmMarker
    | BackToDistricts
    | BackToMap
    | Input(field: Field, typed: string)

  /** District catalogue loaded: the flattened list replaces the old one; a
      failure leaves it as it was. The second component is the alert shown. */
  function OnDistrictsFetched(s: CheckoutState, cities: Fetched<seq<City>>): (r: (CheckoutState, Maybe<string>))
    ensures cities.Loaded? ==> r.0 == s.(districts := Flatten(cities.value)) && r.1.Null?
    ensures cities.FetchFailed? ==> r.0 == s && r.1 == Some(DistrictsFailure)
  {
    match cities
    case Loaded(cs) => (s.(districts := Flatten(cs)), Null)
    case FetchFailed => (s, Some(DistrictsFailure))
  }

  /** `handleSelectDistrict`. The pin is not touched. */
  function OnSelectDistrict(s: CheckoutState, d: FlatDistrict): (r: CheckoutState)
    ensures r.step == StepPin && r.selected == Some(d) && r.zoom == DistrictZoom
    ensures r.center == OfDistrict(d.district.latitude, d.district.longitude)
    ensures r.marker == s.marker && r.info == s.info && r.errors == s.errors
  {
    s.(selected := Some(d), center := OfDistrict(d.district.latitude, d.district.longitude),
       zoom := DistrictZoom, step := StepPin)
  }

  /** `handleMapClick`: the single pin is replaced. */
  function OnMapClick(s: CheckoutState, pos: Coord): (r: CheckoutState)
    ensures r.marker == Some(pos)
    ensures r.step == s.step && r.selected == s.selected && r.info == s.info
  {
    s.(marker := Some(pos))
  }

  /** The "use my position" button: pins the known position, otherwise asks
      for it again (which changes no state). */
  function OnUseCurrentLocation(s: CheckoutState): (r: CheckoutState)
    ensures s.userLocation.Some? ==> r.marker == s.userLocation && r.center == At(s.userLocation.value)
    ensures s.userLocation.Null? ==> r == s
  {
    match s.userLocation
    case Some(p) => s.(marker := Some(p), center := At(p))
    case Null => s
  }

  /** `handleConfirmMarker`: to step 3 only with a pin, otherwise an alert
      and no change. The second component is the alert shown. */
  function OnConfirmMarker(s: CheckoutState): (r: (CheckoutState, Maybe<string>))
    ensures s.marker.Null? ==> r == (s, Some(PinMissing))
    ensures s.marker.Some? ==> r == (s.(step := StepContact), Null)
  {
    if s.marker.Null? then (s, Some(PinMissing)) else (s.(step := StepContact), Null)
  }

  /** Whether the page offers the event in its current step (a handler that is
      not rendered cannot fire); fetch and geolocation callbacks always can. */
  predicate Offered(s: CheckoutState, e: Event) {
    match e
    case DistrictsFetched(_) => true
    case GeolocationFound(_) => true
    case SelectDistrict(d) => s.step == StepDistrict && d in s.districts
    case MapClick(_) => s.step == StepPin
    case UseCurrentLocation => s.step == StepPin
    case ConfirmMarker => s.step == StepPin && s.marker.Some?
    case BackToDistricts => s.step == StepPin
    case BackToMap => s.step == StepContact
    case Input(_, _) => s.step == StepContact
  }

  /** One step of the page: the event's handler when it is offered. */
  function Next(s: CheckoutState, e: Event): CheckoutState {
    if !Offered(s, e) then s
    else match e
      case DistrictsFetched(cs) => OnDistrictsFetched(s, cs).0
      case SelectDistrict(d) => OnSelectDistrict(s, d)
      case GeolocationFound(p) => s.(userLocation := Some(p))
      case MapClick(p) => OnMapClick(s, p)
      case UseCurrentLocation => OnUseCurrentLocation(s)
      case ConfirmMarker => OnConfirmMarker(s).0
      case BackToDistricts => s.(step := StepDistrict)
      case BackToMap => s.(step := StepPin)
      case Input(f, typed) =>
        var (info, errs) := HandleInput(s.info, s.errors, f, typed);
        s.(info := info, errors := errs)
  }

  function Run(s: CheckoutState, events: seq<Event>): CheckoutState
    decreases |events|
  {
    if events == [] then s else Run(Next(s, events[0]), events[1..])
  }

  /** What holds in every state the page can reach: the step is 1..3, a step
      past the first has a district, step 3 has a pin, and the stored form
      values have the shapes the input handler produces. */
  predicate Consistent(s: CheckoutState) {
    && StepDistrict <= s.step <= StepContact
    && (s.step >= StepPin ==> s.selected.Some?)
    && (s.step == StepContact ==> s.marker.Some?)
    && PhoneShaped(s.info.phone)
    && PhoneShaped(s.info.whatsapp)
    && |s.info.addressDescription| <= MaxAddressLength
  }

  lemma NextConsistent(s: CheckoutState, e: Event)
    requires Consistent(s)
    ensures Consistent(Next(s, e))
  {
  }

  /** Every state reached from a consistent one is consistent. */
  lemma {:induction false} RunConsistent(s: CheckoutState, events: seq<Event>)
    requires Consistent(s)
    ensures Consistent(Run(s, events))
    decreases |events|
  {
    if events != [] {
      NextConsistent(s, events[0]);
      RunConsistent(Next(s, events[0]), events[1..]);
    }
  }

  /** Going back to the district list keeps the pin: re-selecting any district
      makes "next" available at once, and it reaches the form with the old pin. */
  lemma BackKeepsPin(s: CheckoutState, d: FlatDistrict)
    requires Consistent(s) && s.step == StepPin && s.marker.Some?
    requires d in s.districts
    ensures var back := Next(s, BackToDistricts);
            var again := Next(back, SelectDistrict(d));
            && back.marker == s.marker
            && again.step == StepPin && again.marker == s.marker
            && Offered(again, ConfirmMarker)
            && Next(again, ConfirmMarker).step == StepContact
            && Next(again, ConfirmMarker).marker == s.marker
  {
  }

  /** Confirming is refused exactly while there is no pin, and a map click
      makes it available. The "click on the map" alert is never shown: the
      button is disabled until there is a pin. */
  lemma ConfirmNeedsPin(s: CheckoutState, pos: Coord)
    requires s.step == StepPin
    ensures Next(s, ConfirmMarker).step == StepPin <==> s.marker.Null?
    ensures Offered(Next(s, MapClick(pos)), ConfirmMarker)
    ensures Offered(s, ConfirmMarker) ==> OnConfirmMarker(s).1.Null?
  {
  }

  /** While the district catalogue cannot be loaded (every fetch fails), the
      page offers no district and never leaves the first step. */
  lemma {:induction false} NoCatalogueStaysOnFirstStep(s: CheckoutState, events: seq<Event>)
    requires s.step == StepDistrict && s.districts == []
    requires forall k :: 0 <= k < |events| && events[k].DistrictsFetched? ==> events[k].cities.FetchFailed?
    ensures Run(s, events).step == StepDistrict && Run(s, events).districts == []
    decreases |events|
  {
    if events != [] {
      var e := events[0];
      assert e.DistrictsFetched? ==> e.cities.FetchFailed?;
      var s' := Next(s, e);
      assert s'.step == StepDistrict && s'.districts == [];
      NoCatalogueStaysOnFirstStep(s', events[1..]);
    }
  }

  // ---------------------------------------------------------------------------
  // Placing the order
  // ---------------------------------------------------------------------------

  datatype OrderItem = OrderItem(
    productId: string, skuId: string, quantity: int, unitPrice: int, totalPrice: int)

  /** The body of `POST /orders`. */
  datatype OrderPayload = OrderPayload(
    items: seq<OrderItem>,
    districtId: int,
    fullName: string,
    phone: string,
    whatsapp: string,
    receiverAddress: string,
    latitude: real,
    longitude: real,
    paymentMethod: string,
    totalAmount: int,
    actualAmount: int,
    discountAmount: int,
    currency: string,
    isWeb: int,
    adId: Maybe<string>)

  /** The sku of the order line: the first sku, else the product id as text. */
  function SkuOf(p: Product): (r: string)
    ensures p.skus.Some? && |p.skus.value| > 0 ==> r == p.skus.value[0].skuId
    ensures !(p.skus.Some? && |p.skus.value| > 0) ==> r == NatToDecimal(p.productId)
  {
    if p.skus.Some? && |p.skus.value| > 0 then p.skus.value[0].skuId else NatToDecimal(p.productId)
  }

  /** The order request for one product line. */
  function BuildOrder(p: Product, quantity: int, d: FlatDistrict, info: ContactInfo, pin: Coord,
                      adId: Maybe<string>): (o: OrderPayload)
    ensures |o.items| == 1
    ensures o.items[0].productId == NatToDecimal(p.productId) && o.items[0].skuId == SkuOf(p)
    ensures o.items[0].quantity == quantity && o.items[0].unitPrice == p.price
    ensures o.items[0].totalPrice == o.totalAmount == o.actualAmount == p.price * quantity
    ensures o.discountAmount == 0
    ensures o.phone == OrderCountryCode + info.phone && o.whatsapp == OrderCountryCode + info.whatsapp
    ensures o.paymentMethod == PaymentMethod && o.currency == Currency
    ensures o.districtId == d.district.id && o.latitude == pin.lat && o.longitude == pin.lng
    ensures o.fullName == info.fullName && o.receiverAddress == info.addressDescription
    ensures o.adId == adId
  {
    var total := p.price * quantity;
    OrderPayload(
      [OrderItem(NatToDecimal(p.productId), SkuOf(p), quantity, p.price, total)],
      d.district.id, info.fullName,
      OrderCountryCode + info.phone, OrderCountryCode + info.whatsapp,
      info.addressDescription, pin.lat, pin.lng, PaymentMethod,
      total, total, 0, Currency, 1, adId)
  }

  /** Dropping the country code from an order's numbers gives back the form's. */
  lemma OrderNumbersRoundTrip(p: Product, q: int, d: FlatDistrict, info: ContactInfo, pin: Coord, adId: Maybe<string>)
    ensures var o := BuildOrder(p, q, d, info, pin, adId);
            && StartsWith(o.phone, OrderCountryCode) && o.phone[|OrderCountryCode|..] == info.phone
            && StartsWith(o.whatsapp, OrderCountryCode) && o.whatsapp[|OrderCountryCode|..] == info.whatsapp
  {
    var o := BuildOrder(p, q, d, info, pin, adId);
    assert o.phone[..3] == OrderCountryCode;
    assert o.whatsapp[..3] == OrderCountryCode;
  }

  /** For a form that passed validation in a reachable state, both order
      numbers are thirteen digits: the country code and the ten typed digits. */
  lemma ValidOrderNumbers(s: CheckoutState, p: Product, q: int, d: FlatDistrict, pin: Coord, adId: Maybe<string>)
    requires Consistent(s) && FormValid(s.info)
    ensures var o := BuildOrder(p, q, d, s.info, pin, adId);
            |o.phone| == 13 && AllDigits(o.phone) && |o.whatsapp| == 13 && AllDigits(o.whatsapp)
  {
    NumberAcceptedWhenShaped(s.info.phone);
    NumberAcceptedWhenShaped(s.info.whatsapp);
    CodedNumber(s.info.phone);
    CodedNumber(s.info.whatsapp);
  }

  /** The country code followed by ten digits is thirteen digits. */
  lemma CodedNumber(p: string)
    requires AllDigits(p) && |p| == MaxPhoneDigits
    ensures |OrderCountryCode + p| == 13 && AllDigits(OrderCountryCode + p)
  {
    var c := OrderCountryCode + p;
    forall i | 0 <= i < |c| ensures IsDigit(c[i]) {
      if i >= 3 { assert c[i] == p[i - 3]; }
    }
  }

  /** The order puts the Ivorian code 225 in front of the typed digits, the
      conversion normalisation the Cameroonian code 237. */
  lemma OrderCodeIsNotConversionCode(p: Product, q: int, d: FlatDistrict, info: ContactInfo,
                                     pin: Coord, adId: Maybe<string>)
    ensures BuildOrder(p, q, d, info, pin, adId).phone != Conversions.NormalizePhone(info.phone)
  {
    var o := BuildOrder(p, q, d, info, pin, adId).phone;
    var c := Conversions.NormalizePhone(info.phone);
    assert o[2] == '5';
    assert c[..3] == "237";
    assert c[2] == '7';
  }

  /** A local number written with its trunk `0` keeps that `0` behind 225 in
      the order, while the conversion event replaces it with 237: 0102030405
      is sent as 2250102030405 and hashed as 237102030405. */
  lemma TrunkZeroNumberCodes(p: Product, q: int, d: FlatDistrict, info: ContactInfo, pin: Coord,
                             adId: Maybe<string>, rest: string)
    requires AllDigits(rest) && info.phone == "0" + rest
    ensures BuildOrder(p, q, d, info, pin, adId).phone == OrderCountryCode + "0" + rest
    ensures Conversions.NormalizePhone(info.phone) == Conversions.PhoneCountryCode + rest
  {
    var phone := info.phone;
    assert AllDigits(phone) by {
      forall k | 0 <= k < |phone| ensures IsDigit(phone[k]) {
        if k > 0 { assert phone[k] == rest[k - 1]; }
      }
    }
    assert StartsWith(phone, "0") by {
      assert phone[..1] == "0";
    }
    assert phone[1..] == rest;
  }

  /** What `POST /orders` came back with: a response with its status and body,
      or a rejection carrying the backend's `message`, if any. */
  datatype OrderOutcome = Created(status: int, data: Maybe<OrderResponse>) | Rejected(message: Maybe<string>)

  datatype PlaceOrderResult =
    /** The form did not validate: errors shown, no request sent. */
    | Invalid(state: CheckoutState)
    /** An alert; the page stays on the form with everything entered kept. */
    | Failed(state: CheckoutState, request: Maybe<OrderPayload>, alert: string)
    /** Navigation to the confirmation page, plus the purchase event to send
        (fire and forget) when the response qualifies. */
    | Placed(order: OrderPayload, destination: SuccessNavigation, purchase: Maybe<PurchaseCall>)

  /** The arguments of `trackPurchaseEvent`: the order's figures, the contact
      form and the client info the page read when it mounted. */
  datatype PurchaseCall = PurchaseCall(
    order: Conversions.PurchaseOrder, user: Conversions.UserInfo, client: Conversions.ClientInfo)

  /** The order reference handed to the purchase event: `order_no || order_id`. */
  function PurchaseRef(data: OrderResponse): Maybe<Conversions.OrderRef> {
    if Truthy(data.orderNo) then Some(Conversions.OrderNo(data.orderNo.value))
    else if data.orderId.Some? then Some(Conversions.OrderId(data.orderId.value))
    else Null
  }

  /** The purchase event's deduplication id names the order number when the
      response has one, else the order id; an order id of 0 without a number
      gives no deduplication id at all. */
  lemma PurchaseEventIdNamesOrder(data: OrderResponse)
    ensures Truthy(data.orderNo) ==>
              Conversions.EventId(PurchaseRef(data)) == Some(Conversions.EventIdPrefix + data.orderNo.value)
    ensures !Truthy(data.orderNo) && data.orderId.Some? && data.orderId.value != 0 ==>
              Conversions.EventId(PurchaseRef(data))
              == Some(Conversions.EventIdPrefix + NatToDecimal(data.orderId.value))
    ensures !Truthy(data.orderNo) && (data.orderId.Null? || data.orderId == Some(0)) ==>
              Conversions.EventId(PurchaseRef(data)).Null?
  {
  }

  /** The contact form as the conversions service sees it: of the fields it
      looks for (`email`, `phone`, `firstName`, `lastName`, `city`, `country`)
      the form has only `phone`. */
  function ConversionUser(info: ContactInfo): Conversions.UserInfo {
    Conversions.UserInfo(Null, Some(info.phone), Null, Null, Null, Null)
  }

  /** The user data the purchase event is built with: the hash of the
      normalised phone when one was typed, and nothing else from the form. The
      full name, the WhatsApp number and the address never reach the event. */
  lemma PurchaseUserData(info: ContactInfo, c: Conversions.ClientInfo, env: Conversions.CryptoEnv)
    ensures var d := Conversions.BuildUserData(ConversionUser(info), c, env);
            && d.em.Null? && d.fn.Null? && d.ln.Null? && d.ct.Null? && d.country.Null?
            && (d.ph.Some? <==> info.phone != [])
            && (d.ph.Some? ==> d.ph.value == Conversions.Digest(env, Conversions.NormalizePhone(info.phone)))
    ensures forall other: ContactInfo :: other.phone == info.phone ==>
              Conversions.BuildUserData(ConversionUser(other), c, env)
              == Conversions.BuildUserData(ConversionUser(info), c, env)
  {
  }

  /** The order and the conversion event never carry the same phone number:
      the phone the purchase event hashes is the 237 normalisation of the
      typed number, and the order's is 225 followed by it. */
  lemma OrderPhoneDiffersFromConversionPhone(s: CheckoutState, p: Product, q: int, adId: Maybe<string>,
                                             client: Conversions.ClientInfo, outcome: OrderOutcome,
                                             env: Conversions.CryptoEnv)
    ensures var r := PlaceOrder(s, p, q, adId, client, outcome);
            r.Placed? && r.purchase.Some? ==>
              && Conversions.BuildUserData(r.purchase.value.user, r.purchase.value.client, env).ph
                 == Some(Conversions.Digest(env, Conversions.NormalizePhone(s.info.phone)))
              && r.order.phone != Conversions.NormalizePhone(s.info.phone)
  {
    var r := PlaceOrder(s, p, q, adId, client, outcome);
    if r.Placed? && r.purchase.Some? {
      PurchaseUserData(s.info, client, env);
      OrderCodeIsNotConversionCode(p, q, s.selected.value, s.info, s.marker.value, adId);
    }
  }

  /** `handlePlaceOrder`, given the product and quantity the page was opened
      with, the attribution id, the client info read at mount and the outcome
      of `POST /orders`. */
  function PlaceOrder(s: CheckoutState, p: Product, quantity: int, adId: Maybe<string>,
                      client: Conversions.ClientInfo, outcome: OrderOutcome): (r: PlaceOrderResult)
    ensures r.Invalid? <==> !FormValid(s.info)
    ensures r.Invalid? ==> r.state == s.(errors := ValidateForm(s.info)) && r.state.errors != map[]
    ensures r.Failed? ==> r.state.info == s.info && r.state.step == s.step && r.state.marker == s.marker
    ensures r.Failed? && r.request.Some? ==> outcome.Rejected?
    ensures r.Placed? ==> outcome.Created? && s.selected.Some? && s.marker.Some?
    ensures r.Placed? ==> r.order == BuildOrder(p, quantity, s.selected.value, s.info, s.marker.value, adId)
    ensures r.Placed? ==> r.destination == SuccessNavigation(Some(p), quantity, Some(s.info), s.selected,
                                                             p.price * quantity, outcome.data)
    ensures r.Placed? ==> (r.purchase.Some? <==> outcome.data.Some? && 200 <= outcome.status < 300)
    ensures r.Placed? && r.purchase.Some? && outcome.Created? && outcome.data.Some? ==>
              r.purchase.value == PurchaseCall(
                                    Conversions.PurchaseOrder(p.productId, quantity, p.price * quantity, p.price,
                                                              PurchaseRef(outcome.data.value)),
                                    ConversionUser(s.info), client)
    ensures r.Failed? ==>
              r.alert == if r.request.Some? && outcome.Rejected? && Truthy(outcome.message)
                         then outcome.message.value else GenericFailure
    ensures FormValid(s.info) && s.selected.Some? && s.marker.Some? ==>
              (r.Placed? <==> outcome.Created?) && (r.Failed? ==> r.request.Some?)
  {
    ValidateFormEmptyIff(s.info);
    var errs := ValidateForm(s.info);
    var s' := s.(errors := errs);
    if errs != map[] then Invalid(s')
    else if s.selected.Null? || s.marker.Null? then
      // building the request reads `selectedDistrict.id` / `customMarker.lat`
      // and throws a TypeError, which the catch turns into the generic alert
      Failed(s', Null, GenericFailure)
    else
      var request := BuildOrder(p, quantity, s.selected.value, s.info, s.marker.value, adId);
      Answer(s', p, quantity, client, request, outcome)
  }

  /** What the answer to a sent order makes of the page: an alert with the
      backend's message (or the generic one) on a rejection; otherwise the
      navigation to the confirmation page, with a purchase event for a 2xx
      response that has a body. */
  function Answer(s: CheckoutState, p: Product, quantity: int, client: Conversions.ClientInfo,
                  request: OrderPayload, outcome: OrderOutcome): (r: PlaceOrderResult)
    ensures !r.Invalid? && (r.Failed? <==> outcome.Rejected?)
    ensures r.Failed? ==> r.state == s && r.request == Some(request)
                          && r.alert == if Truthy(outcome.message) then outcome.message.value else GenericFailure
    ensures r.Placed? ==> r.order == request
                          && r.destination == SuccessNavigation(Some(p), quantity, Some(s.info), s.selected,
                                                                p.price * quantity, outcome.data)
                          && (r.purchase.Some? <==> outcome.data.Some? && 200 <= outcome.status < 300)
    ensures r.Placed? && r.purchase.Some? && outcome.Created? && outcome.data.Some? ==>
              r.purchase.value == PurchaseCall(
                                    Conversions.PurchaseOrder(p.productId, quantity, p.price * quantity, p.price,
                                                              PurchaseRef(outcome.data.value)),
                                    ConversionUser(s.info), client)
  {
    match outcome
    case Rejected(m) =>
      Failed(s, Some(request), if Truthy(m) then m.value else GenericFailure)
    case Created(status, data) =>
      var purchase :=
        if data.Some? && 200 <= status < 300 then
          Some(PurchaseCall(Conversions.PurchaseOrder(p.productId, quantity, p.price * quantity, p.price,
                                                      PurchaseRef(data.value)),
                            ConversionUser(s.info), client))
        else Null;
      Placed(request,
             SuccessNavigation(Some(p), quantity, Some(s.info), s.selected, p.price * quantity, data),
             purchase)
  }

  /** Submitting from any reachable form step with a valid form sends the
      request; what happens next depends only on the backend's answer. */
  lemma ValidFormSends(s: CheckoutState, p: Product, q: int, adId: Maybe<string>,
                       client: Conversions.ClientInfo, outcome: OrderOutcome)
    requires Consistent(s) && s.step == StepContact && FormValid(s.info)
    ensures var r := PlaceOrder(s, p, q, adId, client, outcome);
            (r.Placed? <==> outcome.Created?) && (r.Failed? ==> r.request.Some?)
  {
    ValidateFormIffValid(s.info);
    assert ValidateForm(s.info) == map[];
  }

  /** The page mounted without a product or a quantity sends the visitor home
      and renders nothing. */
  predicate RedirectsHome(p: Maybe<Product>, quantity: int) {
    p.Null? || quantity == 0
  }

  /** Opened from the quantity picker, the checkout always renders: every
      navigation the picker makes carries its product and a quantity of at
      least 1. Opened directly, without navigation state, it sends the visitor
      home. */
  lemma PickerNeverRedirectsHome(p: Product, actions: seq<Quantity.Action>)
    ensures var navs := Quantity.Run(p, Quantity.InitialQuantity, actions).1;
            forall k :: 0 <= k < |navs| ==> !RedirectsHome(Some(navs[k].product), navs[k].quantity)
    ensures forall quantity :: RedirectsHome(Null, quantity)
  {
    Quantity.RunInRange(p, Quantity.InitialQuantity, actions);
  }
}
