/** The purchase-event service (src/services/facebookConversions.js): the
    user-data block with its phone normalisation and hashing, the purchase
    payload with its deduplication id, the access-token guard and the
    "never rejects" result, the `fbc` click-id format and the cookie lookup.

    SHA-256 is an uninterpreted function handed in with the environment; the
    clock, the page URL, the cookie string and the backend call are parameters. */
module Conversions {
  import opened Values
  import opened JsString

  const PixelId := "793391936977534"
  /** Country code put in front of phone numbers before hashing. */
  const PhoneCountryCode := "237"
  const PurchaseEventName := "Purchase"
  const EventCurrency := "XAF"
  const ContentType := "product"
  const ActionSource := "website"
  const EventIdPrefix := "purchase_"
  const MissingToken := "Access token not configured"
  const FbcPrefix := "fb."
  const FbcVersion := "fb.1."
  const FbcCookie := "_fbc"
  const FbpCookie := "_fbp"
  /** Attributes of the `_fbc` cookie written by `setFacebookClickId` (seven days). */
  const FbcCookieAttributes := "; max-age=604800; path=/"

  // ---------------------------------------------------------------------------
  // Hashing and the user-data block
  // ---------------------------------------------------------------------------

  /** How the browser hashes: Web Crypto SHA-256 (as lower-case hex), a Web
      Crypto call that throws, or no Web Crypto at all. */
  datatype CryptoEnv = WebCrypto(sha256: string -> string) | DigestThrows | NoWebCrypto

  /** The text `hashUserData` hashes: trimmed and lower-cased. */
  function Normalize(s: string): string {
    LowerAscii(Trim(s))
  }

  /** Digest of an already normalised value; without a working Web Crypto the
      normalised text itself is sent. */
  function Digest(env: CryptoEnv, normalized: string): string {
    match env
    case WebCrypto(h) => h(normalized)
    case _ => normalized
  }

  /** `hashUserData(data)`. */
  function HashUserData(data: Maybe<string>, env: CryptoEnv): (r: Maybe<string>)
    ensures r.Null? <==> !Truthy(data)
    ensures r.Some? ==> r.value == Digest(env, Normalize(data.value))
  {
    if !Truthy(data) then Null else Some(Digest(env, Normalize(data.value)))
  }

  /** The phone number before hashing: its digits, with a leading `0` replaced
      by the country code, or the country code put in front when missing. */
  function NormalizePhone(phone: string): (r: string)
    ensures AllDigits(r) && StartsWith(r, PhoneCountryCode)
  {
    var digits := StripNonDigits(phone);
    if StartsWith(digits, "0") then PhoneCountryCode + digits[1..]
    else if !StartsWith(digits, PhoneCountryCode) then PhoneCountryCode + digits
    else digits
  }

  /** A number that is already normalised stays as it is. */
  lemma NormalizePhoneIdempotent(phone: string)
    ensures NormalizePhone(NormalizePhone(phone)) == NormalizePhone(phone)
  {
    var r := NormalizePhone(phone);
    assert r[0] == '2';
  }

  /** No digit the user typed is lost except a single leading `0`: the
      normalised number ends with the typed digits (minus that `0`). */
  lemma NormalizePhoneKeepsNumber(phone: string)
    ensures var d := StripNonDigits(phone);
            var r := NormalizePhone(phone);
            if StartsWith(d, "0") then r[|r| - (|d| - 1)..] == d[1..] else r[|r| - |d|..] == d
  {
  }

  /** The fields `buildUserData` reads from the user. */
  datatype UserInfo = UserInfo(
    email: Maybe<string>, phone: Maybe<string>, firstName: Maybe<string>,
    lastName: Maybe<string>, city: Maybe<string>, country: Maybe<string>)

  /** The fields `getClientInfo` produces. */
  datatype ClientInfo = ClientInfo(
    userAgent: Maybe<string>, clientIpAddress: Maybe<string>, fbc: Maybe<string>, fbp: Maybe<string>)

  /** A normalised phone is already trimmed and lower-case, so hashing it
      digests it as it is. */
  lemma HashNormalizedPhone(phone: Maybe<string>, env: CryptoEnv)
    ensures phone.Some? ==>
              HashUserData(Some(NormalizePhone(phone.value)), env) == Some(Digest(env, NormalizePhone(phone.value)))
  {
    if phone.Some? {
      var n := NormalizePhone(phone.value);
      assert !IsWhitespace(n[0]) && !IsWhitespace(n[|n| - 1]);
      TrimOfTrimmed(n);
      LowerAsciiIdempotent(n);
    }
  }

  /** The `user_data` block; each hashed field is the one element of its array. */
  datatype UserData = UserData(
    em: Maybe<string>, ph: Maybe<string>, fn: Maybe<string>, ln: Maybe<string>,
    ct: Maybe<string>, country: Maybe<string>,
    clientUserAgent: Maybe<string>, clientIpAddress: Maybe<string>,
    fbc: Maybe<string>, fbp: Maybe<string>)

  /** A field copied from the client info only when it is truthy. */
  function KeepTruthy(m: Maybe<string>): (r: Maybe<string>)
    ensures r.Some? <==> Truthy(m)
    ensures r.Some? ==> r == m
  {
    if Truthy(m) then m else Null
  }

  /** `buildUserData(userInfo, clientInfo)`. */
  function BuildUserData(u: UserInfo, c: ClientInfo, env: CryptoEnv): (r: UserData)
    ensures r.em.Some? <==> Truthy(u.email)
    ensures r.ph.Some? <==> Truthy(u.phone)
    ensures r.fn.Some? <==> Truthy(u.firstName)
    ensures r.ln.Some? <==> Truthy(u.lastName)
    ensures r.ct.Some? <==> Truthy(u.city)
    ensures r.country.Some? <==> Truthy(u.country)
    ensures r.clientUserAgent.Some? <==> Truthy(c.userAgent)
    ensures r.clientIpAddress.Some? <==> Truthy(c.clientIpAddress)
    ensures r.fbc.Some? <==> Truthy(c.fbc)
    ensures r.fbp.Some? <==> Truthy(c.fbp)
    ensures r.em.Some? ==> r.em.value == Digest(env, Normalize(u.email.value))
    ensures r.ph.Some? ==> r.ph.value == Digest(env, NormalizePhone(u.phone.value))
    ensures r.fn.Some? ==> r.fn.value == Digest(env, Normalize(u.firstName.value))
    ensures r.ln.Some? ==> r.ln.value == Digest(env, Normalize(u.lastName.value))
    ensures r.ct.Some? ==> r.ct.value == Digest(env, Normalize(u.city.value))
    ensures r.country.Some? ==> r.country.value == Digest(env, Normalize(u.country.value))
    ensures r.clientUserAgent.Some? ==> r.clientUserAgent == c.userAgent
    ensures r.clientIpAddress.Some? ==> r.clientIpAddress == c.clientIpAddress
    ensures r.fbc.Some? ==> r.fbc == c.fbc
    ensures r.fbp.Some? ==> r.fbp == c.fbp
  {
    var ph := if Truthy(u.phone) then HashUserData(Some(NormalizePhone(u.phone.value)), env) else Null;
    HashNormalizedPhone(u.phone, env);
    UserData(
      HashUserData(u.email, env), ph, HashUserData(u.firstName, env),
      HashUserData(u.lastName, env), HashUserData(u.city, env), HashUserData(u.country, env),
      KeepTruthy(c.userAgent), KeepTruthy(c.clientIpAddress), KeepTruthy(c.fbc), KeepTruthy(c.fbp))
  }

  /** A local number written with its leading `0` and the same number written
      with the country code are hashed alike, so both match the same person. */
  lemma PhoneSpellingsHashAlike(u: UserInfo, c: ClientInfo, env: CryptoEnv, rest: string)
    requires AllDigits(rest)
    ensures BuildUserData(u.(phone := Some("0" + rest)), c, env).ph
            == BuildUserData(u.(phone := Some(PhoneCountryCode + rest)), c, env).ph
            == Some(Digest(env, PhoneCountryCode + rest))
  {
    var local, full := "0" + rest, PhoneCountryCode + rest;
    assert AllDigits(local) && AllDigits(full);
    assert (local)[1..] == rest;
    assert StartsWith(local, "0");
    assert full[0] == '2' && full[..|PhoneCountryCode|] == PhoneCountryCode;
    assert NormalizePhone(local) == full;
    assert NormalizePhone(full) == full;
  }

  // ---------------------------------------------------------------------------
  // The purchase event
  // ---------------------------------------------------------------------------

  /** The order reference the checkout hands over: `order_no`, else `order_id`. */
  datatype OrderRef = OrderNo(no: string) | OrderId(id: nat)

  /** The reference as template-literal text. */
  function RefText(r: OrderRef): string {
    match r
    case OrderNo(s) => s
    case OrderId(n) => NatToDecimal(n)
  }

  predicate RefTruthy(r: Maybe<OrderRef>) {
    r.Some? && match r.value
      case OrderNo(s) => s != []
      case OrderId(n) => n != 0
  }

  /** The `orderData` argument of `trackPurchaseEvent`. */
  datatype PurchaseOrder = PurchaseOrder(
    productId: nat, quantity: int, totalPrice: int, unitPrice: int, orderNo: Maybe<OrderRef>)

  datatype Content = Content(id: string, quantity: int, price: int)

  datatype CustomData = CustomData(
    currency: string, value: int, contentType: string, contentIds: seq<string>,
    contents: seq<Content>, numItems: int, orderId: Maybe<OrderRef>)

  datatype EventData = EventData(
    eventName: string, eventTime: nat, userData: UserData, customData: CustomData,
    eventSourceUrl: string, actionSource: string, eventId: Maybe<string>)

  /** `parseInt(quantity || 1)` for an integral quantity. */
  function ItemCount(quantity: int): (r: int)
    ensures r != 0
    ensures quantity != 0 ==> r == quantity
    ensures quantity == 0 ==> r == 1
  {
    if quantity == 0 then 1 else quantity
  }

  /** The deduplication id of a purchase: present iff the order reference is. */
  function EventId(ref: Maybe<OrderRef>): (r: Maybe<string>)
    ensures r.Some? <==> RefTruthy(ref)
    ensures r.Some? ==> StartsWith(r.value, EventIdPrefix)
  {
    if RefTruthy(ref) then Some(EventIdPrefix + RefText(ref.value)) else Null
  }

  /** The order reference can be read back from the deduplication id, so two
      purchases share an id only when their references read the same. */
  lemma EventIdRoundTrip(a: Maybe<OrderRef>, b: Maybe<OrderRef>)
    requires RefTruthy(a) && RefTruthy(b)
    ensures EventId(a).value[|EventIdPrefix|..] == RefText(a.value)
    ensures EventId(a) == EventId(b) <==> RefText(a.value) == RefText(b.value)
  {
    var x, y := EventId(a).value, EventId(b).value;
    assert x[|EventIdPrefix|..] == RefText(a.value);
    assert y[|EventIdPrefix|..] == RefText(b.value);
  }

  /** The `custom_data` and envelope of `trackPurchaseEvent`, at clock `nowMs`
      on page `href`. */
  function BuildPurchaseEvent(o: PurchaseOrder, u: UserInfo, c: ClientInfo, env: CryptoEnv,
                              nowMs: nat, href: string): (e: EventData)
    ensures e.eventName == PurchaseEventName && e.actionSource == ActionSource
    ensures e.eventTime * 1000 <= nowMs < e.eventTime * 1000 + 1000
    ensures e.customData.currency == EventCurrency && e.customData.value == o.totalPrice
    ensures e.customData.contentIds == [NatToDecimal(o.productId)]
    ensures e.customData.contents == [Content(NatToDecimal(o.productId), ItemCount(o.quantity), o.unitPrice)]
    ensures e.customData.numItems == ItemCount(o.quantity)
    ensures e.customData.orderId.Some? <==> RefTruthy(o.orderNo)
    ensures e.customData.orderId.Some? ==> e.customData.orderId == o.orderNo
    ensures e.eventId == EventId(o.orderNo)
    ensures e.userData == BuildUserData(u, c, env)
  {
    var id := NatToDecimal(o.productId);
    var custom := CustomData(
      EventCurrency, o.totalPrice, ContentType, [id],
      [Content(id, ItemCount(o.quantity), o.unitPrice)], ItemCount(o.quantity),
      if RefTruthy(o.orderNo) then o.orderNo else Null);
    EventData(PurchaseEventName, nowMs / 1000, BuildUserData(u, c, env), custom, href, ActionSource,
              EventId(o.orderNo))
  }

  // ---------------------------------------------------------------------------
  // Sending
  // ---------------------------------------------------------------------------

  /** What the backend answered. */
  datatype BackendResponse = BackendResponse(success: Maybe<bool>, error: Maybe<string>)

  /** How the backend call went: it threw (with the error's message) or
      resolved, possibly to nothing. In the shipped code the imported
      `facebookAPI` binding does not exist, so the call always throws. */
  datatype BackendCall = Threw(message: string) | Answered(response: Maybe<BackendResponse>)

  /** The request handed to the backend. */
  datatype BackendRequest = BackendRequest(
    pixelId: string, accessToken: string, testEventCode: string, event: EventData)

  /** The resolved value of a tracking call; it never rejects. */
  datatype SendResult = SendResult(success: bool, data: Maybe<BackendResponse>, error: Maybe<string>)

  /** `sendConversionEvent(event)`: the result and the request sent, if any. */
  function SendConversionEvent(e: EventData, accessToken: string, testEventCode: string,
                               backend: BackendCall): (r: (SendResult, Maybe<BackendRequest>))
    ensures accessToken == [] ==> r.1.Null? && r.0 == SendResult(false, Null, Some(MissingToken))
    ensures accessToken != [] ==> r.1 == Some(BackendRequest(PixelId, accessToken, testEventCode, e))
    ensures r.0.success <==>
      accessToken != [] && backend.Answered? && backend.response.Some?
      && backend.response.value.success != Some(false)
    ensures backend.Threw? && accessToken != [] ==> r.0.error == Some(backend.message)
  {
    if accessToken == [] then (SendResult(false, Null, Some(MissingToken)), Null)
    else
      var request := BackendRequest(PixelId, accessToken, testEventCode, e);
      match backend
      case Threw(m) => (SendResult(false, Null, Some(m)), Some(request))
      case Answered(resp) =>
        if resp.Some? && resp.value.success != Some(false) then (SendResult(true, resp, Null), Some(request))
        else (SendResult(false, Null, if resp.Some? then resp.value.error else Null), Some(request))
  }

  /** `trackPurchaseEvent(orderData, userInfo, clientInfo)`. */
  function TrackPurchaseEvent(o: PurchaseOrder, u: UserInfo, c: ClientInfo, env: CryptoEnv, nowMs: nat,
                              href: string, accessToken: string, testEventCode: string,
                              backend: BackendCall): (r: (SendResult, Maybe<BackendRequest>))
    ensures r.1.Some? <==> accessToken != []
    ensures r.1.Some? ==> r.1.value.event == BuildPurchaseEvent(o, u, c, env, nowMs, href)
    ensures r.0.success ==> backend.Answered?
  {
    SendConversionEvent(BuildPurchaseEvent(o, u, c, env, nowMs, href), accessToken, testEventCode, backend)
  }

  /** With the backend binding missing, tracking always resolves to a failure
      that carries the thrown message, whatever the token. */
  lemma ThrowingBackendNeverSucceeds(o: PurchaseOrder, u: UserInfo, c: ClientInfo, env: CryptoEnv,
                                     nowMs: nat, href: string, token: string, test: string, m: string)
    ensures var r := TrackPurchaseEvent(o, u, c, env, nowMs, href, token, test, Threw(m));
            !r.0.success && r.0.error == Some(if token == [] then MissingToken else m)
  {
  }

  // ---------------------------------------------------------------------------
  // Click ids and cookies
  // ---------------------------------------------------------------------------

  /** The `fbc` value for a click id at clock `nowMs`: kept when it already has
      the `fb.` form, otherwise `fb.1.<nowMs>.<clickId>`. */
  function FormatFbc(clickId: string, nowMs: nat): (r: string)
    ensures StartsWith(r, FbcPrefix)
    ensures StartsWith(clickId, FbcPrefix) ==> r == clickId
  {
    if StartsWith(clickId, FbcPrefix) then clickId
    else FbcVersion + NatToDecimal(nowMs) + "." + clickId
  }

  /** Reading an `fb.1.<time>.<clickId>` value back into its parts. */
  function ParseFbc(fbc: string): Maybe<(nat, string)> {
    if StartsWith(fbc, FbcVersion) then ParseStamp(fbc[|FbcVersion|..]) else Null
  }

  /** Reading `<time>.<clickId>` back into its parts. */
  function ParseStamp(rest: string): Maybe<(nat, string)> {
    var d := LeadingDigits(rest);
    if d != [] && |d| < |rest| && rest[|d|] == '.' then Some((DecimalValue(d), rest[|d| + 1..])) else Null
  }

  /** A click id that is not yet in `fb.` form can be read back, with the
      time, from the value built for it. */
  lemma FbcRoundTrip(clickId: string, nowMs: nat)
    requires !StartsWith(clickId, FbcPrefix)
    ensures ParseFbc(FormatFbc(clickId, nowMs)) == Some((nowMs, clickId))
  {
    var t := NatToDecimal(nowMs);
    var stamp := t + ("." + clickId);
    assert FormatFbc(clickId, nowMs) == FbcVersion + stamp;
    PrefixThenRest(FbcVersion, stamp);
    DecimalRoundTrip(nowMs);
    ParseStampOf(t, clickId);
  }

  /** A numeral, a dot and a click id parse back into the numeral's value and
      the click id. */
  lemma ParseStampOf(t: string, clickId: string)
    requires t != [] && AllDigits(t)
    ensures ParseStamp(t + ("." + clickId)) == Some((DecimalValue(t), clickId))
  {
    assert "." + clickId == ['.'] + clickId;
    LeadingDigitsOf(t, ['.'] + clickId);
    CharAfter(t, '.', clickId);
  }

  /** Formatting is stable: a formatted value is kept at any later time. */
  lemma FormatFbcIdempotent(clickId: string, t1: nat, t2: nat)
    ensures FormatFbc(FormatFbc(clickId, t1), t2) == FormatFbc(clickId, t1)
  {
  }

  /** `getCookie(name)` over the `document.cookie` string: the value when
      `; name=` splits `; ` + the cookie string in exactly two, cut at the
      next `;`. */
  function GetCookie(cookie: string, name: string): (r: Maybe<string>)
    ensures r.Some? <==> |Split("; " + cookie, "; " + name + "=")| == 2
    ensures r.Some? ==> !Contains(r.value, ";")
    ensures r.Some? ==> StartsWith(Split("; " + cookie, "; " + name + "=")[1], r.value)
    ensures r.Some? ==>
              var after := Split("; " + cookie, "; " + name + "=")[1];
              && (!Contains(after, ";") ==> r.value == after)
              && (Contains(after, ";") ==> |r.value| < |after| && after[|r.value|] == ';')
  {
    var parts := Split("; " + cookie, "; " + name + "=");
    if |parts| == 2 then
      var v := Split(parts[1], ";")[0];
      SplitHead(parts[1], ";");
      assert IndexOf(parts[1], ";").Some? ==> parts[1][IndexOf(parts[1], ";").value..][..1] == ";";
      Some(v)
    else Null
  }

  /** A cookie string holding just `name=value` (a value without `;`) yields
      that value. */
  lemma GetSingleCookie(name: string, value: string)
    requires !Contains(value, ";")
    ensures GetCookie(name + "=" + value, name) == Some(value)
  {
    var sep := "; " + name + "=";
    assert "; " + (name + "=" + value) == sep + value;
    assert [sep[0]] == ";";
    if Contains(value, sep) {
      ContainsFirstChar(value, sep);
      assert false;
    }
    SplitAtStart(sep, value);
    SplitHead(value, ";");
  }

  /** `setFacebookClickId(fbclid)`: the cookie assignment it performs, if any. */
  function SetFacebookClickId(fbclid: string, nowMs: nat): (r: Maybe<string>)
    ensures r.Some? <==> fbclid != []
    ensures r.Some? ==> r.value == FbcCookie + "=" + FormatFbc(fbclid, nowMs) + FbcCookieAttributes
  {
    if fbclid == [] then Null else Some(FbcCookie + "=" + FormatFbc(fbclid, nowMs) + FbcCookieAttributes)
  }

  /** `getClientInfo()`: the click id comes from the `fbclid` query parameter,
      else from the `_fbc` cookie; `_fbp` comes from its cookie. */
  function GetClientInfo(fbclidParam: Maybe<string>, cookie: string, userAgent: string,
                         nowMs: nat): (r: ClientInfo)
    ensures r.userAgent == Some(userAgent) && r.clientIpAddress.Null?
    ensures Truthy(fbclidParam) ==> r.fbc == Some(FormatFbc(fbclidParam.value, nowMs))
    ensures r.fbc.Some? <==> Truthy(fbclidParam) || Truthy(GetCookie(cookie, FbcCookie))
    ensures r.fbc.Some? ==> StartsWith(r.fbc.value, FbcPrefix)
    ensures !Truthy(fbclidParam) && r.fbc.Some? ==> r.fbc == Some(FormatFbc(GetCookie(cookie, FbcCookie).value, nowMs))
    ensures r.fbp.Some? <==> Truthy(GetCookie(cookie, FbpCookie))
    ensures r.fbp.Some? ==> r.fbp == GetCookie(cookie, FbpCookie)
  {
    var clickId := OrElse(fbclidParam, GetCookie(cookie, FbcCookie));
    var fbp := GetCookie(cookie, FbpCookie);
    ClientInfo(Some(userAgent), Null,
               if Truthy(clickId) then Some(FormatFbc(clickId.value, nowMs)) else Null,
               if Truthy(fbp) then fbp else Null)
  }

  /** The name-value pair a browser keeps from a cookie assignment: the text
      before the first `;` (the rest are attributes). */
  function StoredPair(assignment: string): string {
    Split(assignment, ";")[0]
  }

  /** A click id without `;` survives the cookie: the pair stored by
      `setFacebookClickId` reads back, through `getCookie`, as the formatted
      value, and a later `getClientInfo` without `fbclid` in the URL sends it
      unchanged, with the time of the click and not its own. */
  lemma ClickIdCookieRoundTrip(clickId: string, t1: nat, t2: nat, userAgent: string)
    requires clickId != [] && !Contains(clickId, ";")
    ensures SetFacebookClickId(clickId, t1).Some?
    ensures var pair := StoredPair(SetFacebookClickId(clickId, t1).value);
            && pair == FbcCookie + "=" + FormatFbc(clickId, t1)
            && GetCookie(pair, FbcCookie) == Some(FormatFbc(clickId, t1))
            && GetClientInfo(Null, pair, userAgent, t2).fbc == Some(FormatFbc(clickId, t1))
  {
    var f := FormatFbc(clickId, t1);
    FbcHasNoSemicolon(clickId, t1);
    var head := FbcCookie + "=" + f;
    ContainsChar(f, ';');
    assert ';' !in head;
    assert SetFacebookClickId(clickId, t1).value == head + ([';'] + " max-age=604800; path=/");
    IndexOfCharAfter(head, ';', " max-age=604800; path=/");
    SplitHead(SetFacebookClickId(clickId, t1).value, ";");
    assert (head + ([';'] + " max-age=604800; path=/"))[..|head|] == head;
    GetSingleCookie(FbcCookie, f);
    FormatFbcIdempotent(clickId, t1, t2);
  }

  /** The formatted click id holds a `;` only if the click id does. */
  lemma FbcHasNoSemicolon(clickId: string, nowMs: nat)
    requires !Contains(clickId, ";")
    ensures !Contains(FormatFbc(clickId, nowMs), ";")
  {
    ContainsChar(clickId, ';');
    var f := FormatFbc(clickId, nowMs);
    if !StartsWith(clickId, FbcPrefix) {
      var t := NatToDecimal(nowMs);
      assert f == FbcVersion + t + "." + clickId;
      assert ';' !in t;
    }
    ContainsChar(f, ';');
  }
}
