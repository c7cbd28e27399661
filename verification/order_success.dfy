/** The confirmation page shown after an order: its guard against being
    opened without an order, the pickup code it displays and the app-store
    choice behind its download button. */
module OrderSuccess {
  import opened Values
  import opened JsString
  import opened Entities
  import Checkout
  import Conversions

  /** Shown when the order response carries no verification code. */
  const DefaultPickupCode := "000000"

  /** `!product || !quantity || !userInfo || !selectedLocation`, over
      `location.state || {}`: the page sends the visitor home and renders
      nothing. */
  predicate Redirects(nav: Maybe<SuccessNavigation>) {
    || nav.Null?
    || nav.value.product.Null?
    || nav.value.quantity == 0
    || nav.value.userInfo.Null?
    || nav.value.selectedLocation.Null?
  }

  /** The navigation state carries a non-empty verification code. */
  predicate HasCode(nav: Maybe<SuccessNavigation>) {
    nav.Some? && nav.value.orderResponse.Some? && Truthy(nav.value.orderResponse.value.verificationCode)
  }

  /** `location.state?.orderResponse?.verification_code || '000000'`. */
  function PickupCode(nav: Maybe<SuccessNavigation>): (r: string)
    ensures r != ""
    ensures HasCode(nav) ==> r == nav.value.orderResponse.value.verificationCode.value
    ensures !HasCode(nav) ==> r == DefaultPickupCode
  {
    if nav.Some? && nav.value.orderResponse.Some? then
      OrElse(nav.value.orderResponse.value.verificationCode, Some(DefaultPickupCode)).value
    else DefaultPickupCode
  }

  /** The two stores the download button can open. */
  datatype Store = AppStore | GooglePlay

  const AppStoreUrl := "https://apps.apple.com/fr/app/brainnel/id1613055347"
  const GooglePlayUrl := "https://play.google.com/store/apps/details?id=uni.UNIC87CC93"

  function StoreUrl(s: Store): string {
    match s
    case AppStore => AppStoreUrl
    case GooglePlay => GooglePlayUrl
  }

  /** `/iPad|iPhone|iPod/.test(userAgent)` (case-sensitive). */
  predicate NamesAppleDevice(userAgent: string) {
    Contains(userAgent, "iPad") || Contains(userAgent, "iPhone") || Contains(userAgent, "iPod")
  }

  /** `/android/i.test(userAgent)`, with ASCII case folding. */
  predicate NamesAndroid(userAgent: string) {
    Contains(LowerAscii(userAgent), "android")
  }

  /** `redirectToAppStore`: an Apple device (unless the browser exposes
      `MSStream`) goes to the App Store, checked first; then Android goes to
      Google Play; any other device is asked, OK meaning Google Play and
      Cancel the App Store. Returns the store and whether the question was
      asked. */
  function ChooseStore(userAgent: string, msStream: bool, confirmOk: bool): (r: (Store, bool))
    ensures NamesAppleDevice(userAgent) && !msStream ==> r == (AppStore, false)
    ensures !(NamesAppleDevice(userAgent) && !msStream) && NamesAndroid(userAgent) ==> r == (GooglePlay, false)
    ensures r.1 <==> !(NamesAppleDevice(userAgent) && !msStream) && !NamesAndroid(userAgent)
    ensures r.1 ==> (r.0 == GooglePlay <==> confirmOk)
  {
    if NamesAppleDevice(userAgent) && !msStream then (AppStore, false)
    else if NamesAndroid(userAgent) then (GooglePlay, false)
    else (if confirmOk then GooglePlay else AppStore, true)
  }

  /** A user agent naming both an iPhone and Android goes to the App Store:
      the Apple test comes first. */
  lemma AppleCheckedFirst(pre: string, mid: string, post: string, confirmOk: bool)
    ensures ChooseStore(pre + "iPhone" + mid + "Android" + post, false, confirmOk) == (AppStore, false)
  {
    var ua := pre + "iPhone" + mid + "Android" + post;
    assert OccursAt(ua, "iPhone", |pre|) by {
      assert ua[|pre|..|pre| + 6] == "iPhone";
    }
    ContainsIff(ua, "iPhone");
  }

  /** "Android" in any letter case is recognised. */
  lemma AndroidAnyCase(pre: string, post: string, confirmOk: bool)
    requires !NamesAppleDevice(pre + "ANDROID" + post)
    ensures ChooseStore(pre + "ANDROID" + post, false, confirmOk) == (GooglePlay, false)
  {
    var ua := pre + "ANDROID" + post;
    var low := LowerAscii(ua);
    assert low[|pre|..|pre| + 7] == "android" by {
      forall k | 0 <= k < 7 ensures low[|pre| + k] == "android"[k] {
        assert ua[|pre| + k] == "ANDROID"[k];
      }
    }
    assert OccursAt(low, "android", |pre|);
    ContainsIff(low, "android");
  }

  /** An order placed from a valid form in a reachable checkout state, whose
      creation succeeded, opens a confirmation page that renders (it does not
      redirect) and shows the backend's verification code, or the default
      code when there is none. */
  lemma PlacedOrderShowsConfirmation(s: Checkout.CheckoutState, p: Product, quantity: int, adId: Maybe<string>,
                                     client: Conversions.ClientInfo, status: int, data: OrderResponse)
    requires Checkout.Consistent(s) && s.step == Checkout.StepContact && Checkout.FormValid(s.info)
    requires quantity != 0
    ensures var r := Checkout.PlaceOrder(s, p, quantity, adId, client, Checkout.Created(status, Some(data)));
            && r.Placed?
            && !Redirects(Some(r.destination))
            && PickupCode(Some(r.destination)) == (if Truthy(data.verificationCode) then data.verificationCode.value else DefaultPickupCode)
  {
    var r := Checkout.PlaceOrder(s, p, quantity, adId, client, Checkout.Created(status, Some(data)));
    Checkout.ValidFormSends(s, p, quantity, adId, client, Checkout.Created(status, Some(data)));
    ShowsNavigation(r.destination, data);
  }

  /** A complete navigation state renders and shows its response's code. */
  lemma ShowsNavigation(nav: SuccessNavigation, data: OrderResponse)
    requires nav.product.Some? && nav.quantity != 0 && nav.userInfo.Some? && nav.selectedLocation.Some?
    requires nav.orderResponse == Some(data)
    ensures !Redirects(Some(nav))
    ensures PickupCode(Some(nav)) == if Truthy(data.verificationCode) then data.verificationCode.value else DefaultPickupCode
  {
  }

  /** The page opened directly, without navigation state, renders nothing
      and still has a code to show. */
  lemma DirectVisitRedirects()
    ensures Redirects(Null) && PickupCode(Null) == DefaultPickupCode
  {
  }
}
