# Storefront core in Dafny

A Dafny model of the logic inside a React storefront. The storefront sells
products for cash on delivery: a visitor arrives from an ad, browses a paged
product list, picks a quantity and checks out in three steps (district, map
pin, contact form). A confirmation page then shows a pickup code and offers
the mobile app. A separate page lets a customer correct their delivery
address from a link sent by the rider. Around the checkout sit the ad
attribution (the Facebook ad id in `utm_content`, kept in local storage) and
the purchase conversion event.

React state is an immutable record. Each handler is a pure function from
state to state. Everything the browser or a server decides comes in as a
parameter:
- query strings are lists of decoded pairs;
- local storage is a two-entry record;
- cookies are the `document.cookie` string;
- clocks are integer milliseconds;
- SHA-256 is an uninterpreted function;
- each HTTP request is a datatype of its possible outcomes.

JavaScript `null`/`undefined` is `Maybe.Null`, and truthiness is spelt out
(`Values.Truthy`).

| file | module | models |
|---|---|---|
| values.dfy | Values | `Maybe`, JavaScript truthiness, `a \|\| b` |
| jsstring.dfy | JsString | JavaScript `trim`, `startsWith`, `includes`, `split`/`join`, ASCII `toLowerCase`, decimal `toString` and `parseInt` |
| entities.dfy | Entities | products, cities and districts, the contact form, the order response, the confirmation page's navigation state |
| checkout.dfy | Checkout | src/pages/PaymentPage.jsx |
| address_update.dfy | AddressUpdate | src/pages/UpdateAddress.jsx |
| url_params.dfy | UrlParams | src/utils/urlParams.js |
| ad_tracking.dfy | AdTracking | src/hooks/useAdTracking.js |
| conversions.dfy | Conversions | src/services/facebookConversions.js |
| quantity.dfy | Quantity | src/components/QuantityModal.jsx |
| countdown.dfy | Countdown | src/components/Countdown.jsx |
| product_list.dfy | ProductList | src/components/ProductList.jsx |
| order_success.dfy | OrderSuccess | src/pages/OrderSuccessPage.jsx |

Where the code's behaviour is surprising, the model follows the code:

- **Checkout back buttons.** Going back from the map to the district list does not clear the pin (PaymentPage.jsx:388). Re-selecting a district does not clear it either, so "next" is available at once (`Checkout.BackKeepsPin`). The address-update page behaves the same way (`AddressUpdate.BackKeepsPin`).
- **Ad id from the URL.** An ad id in the URL overwrites the stored one: the last touch wins (useAdTracking.js:127-134).
- **Phone country codes.** The order request puts 225 in front of the typed number (PaymentPage.jsx:214). The conversion event normalises the same number to 237 (facebookConversions.js:66). The two numbers sent never agree (`Checkout.OrderPhoneDiffersFromConversionPhone`).
- **Address length on the checkout page.** The checkout form has no "too long" check. The input handler cuts the address to 200 characters instead. The address-update page has both: a 200-character text area and a "Maximum 200 caractères" check, which therefore never fires (`AddressUpdate.TypedAddressNeverTooLong`).
- **District service.** The checkout page imports a `districtAPI` binding that the API module does not export (PaymentPage.jsx:3; services/api.js exports `productAPI`, `categoryAPI`, `pickupAPI` and `orderAPI`). As a static import this is a link error, so the page as written does not load at all. A bundler that tolerates the missing export would leave the binding undefined: `districtAPI.getAllDistricts()` then throws inside the `try` (PaymentPage.jsx:58) and ends in the alert at :78, so the catalogue never loads and the page stays on step 1 (`Checkout.NoCatalogueStaysOnFirstStep`). The model keeps the loaded catalogue as an outcome, for the service the page is written against.
- **Conversion backend.** The conversion service imports a `facebookAPI` binding that the API module does not export. With an access token configured, the backend call therefore throws and tracking resolves to a failure (`Conversions.ThrowingBackendNeverSucceeds`). The call is still modelled with every outcome it could have.
- **Product list paging.**
  - The next page is `products.length / 20 + 1` as a JavaScript number. After a short page that still reports `next`, the requested page is fractional: 1.35 after 7 products (`ProductList.ShortPageGivesFractionalNext`). Page numbers are therefore `real`.
  - A response object without `items` or `results` is stored as it came. It is then no longer a list (`Listing.Unlisted`).
- **Address-update asynchrony.**
  - A position request made on the map step can answer after the pin was confirmed. The answer then replaces the confirmed pin, even with a latitude of 0 that confirming would have refused, and that pin is sent with the update (`AddressUpdate.LateLocationReplacesConfirmedPin`). For this reason the page invariant only says the coordinates are set from step 3 on, not that they are non-zero.
  - The back button stays active while an update is in flight, and a success still shows the final step from wherever the customer went (`AddressUpdate.BackDuringSubmitStillDone`).
  - A district response without its `districts` field is stored as it is. The district step then cannot render (`districts.map` throws), and no control is left on screen (`AddressUpdate.MissingDistrictListCrashes`).
- **Address-update token guard.** The token check runs only when the page mounts. The retry button on the error screen re-runs the initialisation without it (`AddressUpdate.RetryBypassesTokenGuard`).

## Model

| member | source | states |
|---|---|---|
| Checkout.Flatten | src/pages/PaymentPage.jsx:61-73 | the flattened catalogue has one entry per district of every city, a city without a district list contributing none |
| Checkout.FlattenEntriesBelong | src/pages/PaymentPage.jsx:61-73 | every flattened entry carries the id, the name and the full district list of a catalogue city, and is one of that city's districts |
| Checkout.FlattenPosition | src/pages/PaymentPage.jsx:61-73 | catalogue order is kept: district j of city i sits right after the districts of all earlier cities |
| Checkout.FlattenAppend | src/pages/PaymentPage.jsx:61-73 | flattening two catalogues one after the other gives the two flattened lists one after the other |
| Checkout.FlattenDistricts | src/pages/PaymentPage.jsx:61-73 | the nested forEach/push loop builds exactly the flattened catalogue |
| Checkout.PushDistricts | src/pages/PaymentPage.jsx:63-72 | the inner loop appends exactly one city's districts, in order, each tagged with the city, and nothing for a city without districts |
| Checkout.SanitizePhone | src/pages/PaymentPage.jsx:147-149 | a stored phone or WhatsApp value is digits only, at most ten, and is the first ten digits of what was typed |
| Checkout.SanitizePhoneIdempotent | src/pages/PaymentPage.jsx:147-149 | cleaning an already cleaned number changes nothing |
| Checkout.SanitizeIgnoresNonDigit | src/pages/PaymentPage.jsx:147-149 | typing a character that is not a digit leaves the stored number unchanged |
| Checkout.LimitAddress | src/pages/PaymentPage.jsx:153-154 | the stored address is what was typed when at most 200 characters, otherwise its first 200 |
| Checkout.HandleInput | src/pages/PaymentPage.jsx:146-165 | an edit stores the cleaned value in that field only (the name verbatim), hides only that field's error and leaves the other fields and errors as they were |
| Checkout.ValidateForm | src/pages/PaymentPage.jsx:168-195 | the new errors object holds exactly the fields whose rule produces a message, each with that message |
| Checkout.FieldErrorIffFails | src/pages/PaymentPage.jsx:171-189 | a field gets a message exactly when it fails its condition, and the message is never empty |
| Checkout.ValidateFormIffValid | src/pages/PaymentPage.jsx:168-195 | the validator passes (no keys) iff the trimmed name is non-empty, both numbers are non-blank with length ten and the trimmed address has at least 5 characters; every failing field shows its error |
| Checkout.FieldMessage | src/pages/PaymentPage.jsx:171-189 | the message a failing field gets is its "required" message when blank and its length rule's message otherwise; the name, which has no length rule, fails only when blank |
| Checkout.ValidateFormMessages | src/pages/PaymentPage.jsx:171-189 | a blank field gets its "required" message, a non-blank failing one its length message |
| Checkout.NumberAcceptedWhenShaped | src/pages/PaymentPage.jsx:175-183 | for a number the input handler stored, passing the check means having exactly ten digits |
| Checkout.TypedPhoneAccepted | src/pages/PaymentPage.jsx:146-183 | a typed phone passes validation exactly when what was typed holds at least ten digits |
| Checkout.StoredAddressBounds | src/pages/PaymentPage.jsx:153-191 | a stored address never exceeds 200 characters, and one that passes has a trimmed length between 5 and 200 |
| Checkout.Initial | src/pages/PaymentPage.jsx:18-39 | the page starts on step 1 with no district, no pin and an empty form, which satisfies the page invariant |
| Checkout.OnSelectDistrict | src/pages/PaymentPage.jsx:112-128 | selecting a district records it, centres the map on it at zoom 14 and moves to step 2, keeping the pin and the form |
| Checkout.OnMapClick | src/pages/PaymentPage.jsx:132-134 | a map click replaces the single pin and changes nothing else |
| Checkout.OnUseCurrentLocation | src/pages/PaymentPage.jsx:342-348 | with a known position the pin and the map centre move to it; without one nothing changes |
| Checkout.OnDistrictsFetched | src/pages/PaymentPage.jsx:55-84 | a loaded catalogue replaces the list with its flattening and shows no alert; a failed load keeps the list and alerts "Impossible de charger la liste des districts" |
| Checkout.NoCatalogueStaysOnFirstStep | src/pages/PaymentPage.jsx:55-84 | while every catalogue fetch fails, no district is ever offered and the page stays on step 1 |
| Checkout.OnConfirmMarker | src/pages/PaymentPage.jsx:137-143 | confirming moves to step 3 only with a pin; without one the state is unchanged and the "click on the map" alert is shown |
| Checkout.NextConsistent | src/pages/PaymentPage.jsx:112-165 | every offered event keeps the invariant: step 1 to 3, a district from step 2, a pin on step 3, numbers of at most ten digits, an address of at most 200 characters |
| Checkout.RunConsistent | src/pages/PaymentPage.jsx:112-165 | every sequence of events from a consistent state ends in a consistent state |
| Checkout.BackKeepsPin | src/pages/PaymentPage.jsx:388 | going back to the district list and picking any district again keeps the old pin, and the form can be reached with it at once |
| Checkout.ConfirmNeedsPin | src/pages/PaymentPage.jsx:137-143 | on the map step, confirming is refused exactly while there is no pin, a map click makes it available, and since the button is disabled without a pin (line 395) the page never shows the missing-pin alert |
| Checkout.SkuOf | src/pages/PaymentPage.jsx:208 | the order line's sku is the first sku, or the product id as text when there is none |
| Checkout.BuildOrder | src/pages/PaymentPage.jsx:204-226 | the order has one line; line total, total and actual amount are price times quantity; discount 0; numbers are 225 followed by the form's; "cod" and "FCFA"; district, pin and ad id as chosen |
| Checkout.OrderNumbersRoundTrip | src/pages/PaymentPage.jsx:214-215 | removing the 225 prefix from an order's numbers gives back the form's numbers |
| Checkout.ValidOrderNumbers | src/pages/PaymentPage.jsx:168-215 | after validation in a reachable state, both order numbers are exactly thirteen digits |
| Checkout.PurchaseUserData | src/services/facebookConversions.js:54-85 | the purchase event built from the contact form carries the hash of the normalised phone when one was typed, and no email, name, city or country: the form's full name never reaches it |
| Checkout.OrderPhoneDiffersFromConversionPhone | src/pages/PaymentPage.jsx:214-241 | for a placed order with a purchase event, the event's `ph` is the digest of the 237 normalisation of the typed number, which never equals the order's 225 number |
| Checkout.TrunkZeroNumberCodes | src/services/facebookConversions.js:62-70 | a local number written 0 followed by digits is sent in the order as 225, the 0, then the digits, and hashed for the conversion event as 237 followed by the digits without the 0 |
| Checkout.PlaceOrder | src/pages/PaymentPage.jsx:198-268 | an invalid form sends nothing and shows its errors; a created order navigates with the product, quantity, form, district, total and response data unmodified; with a valid form, a district and a pin the request is always sent; the purchase event is sent iff the response has data and a 2xx status, and carries the product id, quantity, total, unit price and `order_no \|\| order_id`, the contact form and the client info read at mount; a failure keeps the form and alerts the backend's non-empty message after a rejection, the generic text in every other case |
| Checkout.Answer | src/pages/PaymentPage.jsx:229-262 | a rejection alerts the backend's message or the generic one and keeps the page; any response navigates to the confirmation page with the request sent, and a 2xx response with a body adds the purchase event with the order's figures, the contact form and the client info |
| Checkout.PurchaseEventIdNamesOrder | src/pages/PaymentPage.jsx:233-245 | the purchase event's deduplication id names the order number when there is one, else a non-zero order id; with neither there is no deduplication id |
| Checkout.PickerNeverRedirectsHome | src/pages/PaymentPage.jsx:44-47 | every navigation the quantity picker makes carries a product and a quantity of at least 1, so the checkout renders; a visit without navigation state goes home |
| Checkout.ValidFormSends | src/pages/PaymentPage.jsx:198-257 | from the form step of a reachable state, a valid form always sends the request, and the page navigates exactly when the order is created |
| Conversions.HashUserData | src/services/facebookConversions.js:27-49 | falsy input gives null; otherwise the trimmed, lower-cased text is hashed, or sent as is without Web Crypto |
| Conversions.NormalizePhone | src/services/facebookConversions.js:62-69 | the normalised phone is digits only and always starts with 237 |
| Conversions.NormalizePhoneIdempotent | src/services/facebookConversions.js:62-69 | normalising a normalised phone changes nothing |
| Conversions.NormalizePhoneKeepsNumber | src/services/facebookConversions.js:62-69 | every typed digit is kept at the end of the result except a single leading 0 |
| Conversions.BuildUserData | src/services/facebookConversions.js:54-107 | each user-data field is present iff its source value is truthy; email, first name, last name, city and country carry the digest of the trimmed lower-cased value, the phone the digest of the normalised number; the four client fields are copied unchanged |
| Conversions.PhoneSpellingsHashAlike | src/services/facebookConversions.js:62-71 | a local number written with its leading 0 and the same number written with 237 produce the same phone digest |
| Conversions.ItemCount | src/services/facebookConversions.js:184-187 | the item count is the quantity, or 1 for a zero quantity |
| Conversions.EventId | src/services/facebookConversions.js:204-207 | the deduplication id exists iff the order reference is truthy and then starts with "purchase_" |
| Conversions.EventIdRoundTrip | src/services/facebookConversions.js:204-207 | the order reference can be read back from the id, so two ids agree iff their references read the same |
| Conversions.BuildPurchaseEvent | src/services/facebookConversions.js:169-207 | a Purchase event in XAF whose value is the total; one content entry for the product with the item count; event time is the clock in whole seconds; order_id and event_id iff the reference is truthy |
| Conversions.SendConversionEvent | src/services/facebookConversions.js:112-164 | without a token the result is a failure and nothing is sent; with one the request carries pixel id, token and event; success iff the backend answered with something whose success is not false |
| Conversions.TrackPurchaseEvent | src/services/facebookConversions.js:169-215 | tracking a purchase sends the purchase event exactly when a token is configured and succeeds only when the backend answered |
| Conversions.ThrowingBackendNeverSucceeds | src/services/facebookConversions.js:142-163 | with a backend call that throws, tracking resolves to a failure carrying the thrown message, or the missing-token error |
| Conversions.FormatFbc | src/services/facebookConversions.js:299 | the click-id value always starts with "fb.", and one already in that form is kept |
| Conversions.FbcRoundTrip | src/services/facebookConversions.js:299 | from a formatted fb.1.time.id value both the time and the original click id can be read back |
| Conversions.FormatFbcIdempotent | src/services/facebookConversions.js:330 | formatting a formatted value at any later time changes nothing |
| Conversions.GetCookie | src/services/facebookConversions.js:318-323 | a value is returned iff "; name=" splits the cookie string into exactly two parts; it is the second part cut just before its first ";", or the whole second part when it has none |
| Conversions.ParseStampOf | src/services/facebookConversions.js:299 | a numeral, a dot and a click id read back as the numeral's value and the click id |
| Conversions.GetSingleCookie | src/services/facebookConversions.js:318-323 | a cookie string holding only name=value yields that value |
| Conversions.SetFacebookClickId | src/services/facebookConversions.js:328-334 | a non-empty click id writes the _fbc cookie with the formatted value for seven days; an empty one writes nothing |
| Conversions.GetClientInfo | src/services/facebookConversions.js:286-313 | the fbc field is the formatted fbclid parameter when that is non-empty, else the formatted _fbc cookie; fbp is the _fbp cookie; each is present iff its source is truthy |
| Conversions.ClickIdCookieRoundTrip | src/services/facebookConversions.js:286-334 | the pair a browser keeps from the _fbc assignment reads back through getCookie as the formatted click id, and client info built later without fbclid sends it with the original click time |
| UrlParams.Param | src/utils/urlParams.js:11-26 | a parameter is the value of the first pair with that name, and null iff there is none |
| UrlParams.UtmParams | src/utils/urlParams.js:32-41 | the UTM object has exactly the seven keys, each holding the raw parameter or null |
| UrlParams.AdIdFromUrl | src/utils/urlParams.js:58-85 | the ad id is the trimmed utm_content iff that is a non-empty run of ASCII digits; null when the parameter is missing or empty |
| UrlParams.AdIdFromPaddedContent | src/utils/urlParams.js:69-70 | a digit run surrounded by whitespace is extracted intact |
| UrlParams.NonDigitContentHasNoAdId | src/utils/urlParams.js:69-77 | a non-digit anywhere in the trimmed utm_content gives no ad id |
| UrlParams.IsFromFacebookAd | src/utils/urlParams.js:91-99 | a Facebook visit is a source fb or facebook with medium paid or cpc, or any non-empty fbclid |
| UrlParams.IsFromTikTokAd | src/utils/urlParams.js:105-108 | a TikTok visit is exactly a source tiktok or tt |
| UrlParams.AdSource | src/utils/urlParams.js:115-131 | the numeric ad id if there is one, else "tiktok" for a TikTok source, else null |
| UrlParams.AdSourceKinds | src/utils/urlParams.js:115-131 | a reported source is either an all-digit id or the TikTok marker, never both |
| UrlParams.NumericIdTakesPrecedence | src/utils/urlParams.js:115-131 | a numeric ad id wins over a TikTok source in the same URL |
| UrlParams.AdTrackingInfo | src/utils/urlParams.js:137-163 | the tracking record's ad_id is the ad source, with the UTM object, both classifications, the timestamp and the URL |
| UrlParams.TrackingInfoCarriesUrlAdId | src/utils/urlParams.js:137-150 | with a Facebook ad id in the URL, the record names exactly that id and its utm_content is present |
| UrlParams.UtmParamsIgnoresOthers | src/utils/urlParams.js:32-41 | a parameter outside the seven UTM names leaves the UTM object unchanged |
| UrlParams.TrackingRecordSelfConsistent | src/utils/urlParams.js:137-163 | both ad flags of the tracking record can be recomputed from the UTM object it carries, and a numeric ad id is that object's trimmed utm_content |
| UrlParams.ClickIdOnlyVisit | src/utils/urlParams.js:91-131 | a URL with only a click id is a Facebook visit, not a TikTok one, and has no ad source |
| AdTracking.LoadFromStorage | src/hooks/useAdTracking.js:20-48 | a stored record is restored when present; a stored id is restored and returned when truthy; an unparsable record aborts the whole read |
| AdTracking.Save | src/hooks/useAdTracking.js:53-73 | the id entry is written only for a truthy id and the record entry only for a record; the other entry is untouched |
| AdTracking.Init | src/hooks/useAdTracking.js:121-156 | an ad id in the URL becomes the id and overwrites both entries; otherwise storage is read and left as it is; loading is off afterwards either way |
| AdTracking.NoUrlIdKeepsStoredId | src/hooks/useAdTracking.js:140-147 | without a URL id the id is the stored one or none, so a TikTok-only visit never produces one |
| AdTracking.UrlIdOverwritesStored | src/hooks/useAdTracking.js:127-134 | a URL id replaces a different stored id in the state and in storage |
| AdTracking.UrlIdPersists | src/hooks/useAdTracking.js:121-156 | an id taken from a URL is restored, with its record, on a later visit without one |
| AdTracking.UnparsableInfoHidesId | src/hooks/useAdTracking.js:20-48 | a stored record that does not parse hides the stored id too |
| AdTracking.Clear | src/hooks/useAdTracking.js:78-91 | clearing removes both entries and drops the id and the record |
| AdTracking.ClearForgets | src/hooks/useAdTracking.js:78-91 | after clearing, a visit without a URL id has no id and no record |
| AdTracking.SetManually | src/hooks/useAdTracking.js:96-105 | a falsy id is ignored; otherwise the id is set and stored, and the record is left alone |
| AdTracking.ManualIdPersists | src/hooks/useAdTracking.js:96-105 | a manually set id is restored on the next visit without a URL id, as long as the stored record is readable |
| AdTracking.CurrentTrackingInfo | src/hooks/useAdTracking.js:110-118 | the report repeats id and record, has_ad_id iff the id is truthy, and captured_at is the record's timestamp or null |
| AdTracking.CurrentInfoAfterUrlVisit | src/hooks/useAdTracking.js:110-118 | after a visit with a URL id the report has that id and the visit's timestamp |
| Quantity.Change | src/components/QuantityModal.jsx:20-24 | a new quantity is taken iff it lies between 1 and the stock; otherwise the quantity stays |
| Quantity.TypedQuantity | src/components/QuantityModal.jsx:84 | a typed value counts as its parsed integer, or 1 when it has none or it is 0 |
| Quantity.TypedNumberSelected | src/components/QuantityModal.jsx:84 | typing a number between 1 and the stock selects exactly that number |
| Quantity.NonNumericSelectsOne | src/components/QuantityModal.jsx:84 | typing something that is not a number selects 1 whenever there is stock |
| Quantity.DisabledExactlyWhenRefused | src/components/QuantityModal.jsx:74-95 | within range, minus is disabled iff quantity is at most 1 and plus iff it is at least the stock, which is exactly when their clicks would be refused |
| Quantity.TotalFollowsButtons | src/components/QuantityModal.jsx:20-95 | after any session of actions, a plus click raises the total by one unit price and a minus click lowers it by one, unless that button is disabled; a fresh picker shows the unit price |
| Quantity.RunSnoc | src/components/QuantityModal.jsx:20-95 | one more action after a session acts on the quantity the session left, and a click on a disabled button changes nothing |
| Quantity.TotalWithinStock | src/components/QuantityModal.jsx:42 | for a product in stock with a non-negative price, the total shown always lies between one unit price and the price of the whole stock |
| Quantity.Step | src/components/QuantityModal.jsx:26-36 | confirming navigates with the product and the current quantity and resets the quantity to 1; no other action navigates |
| Quantity.StepInRange | src/components/QuantityModal.jsx:20-36 | every enabled action keeps the quantity at least 1 and within stock (or the initial 1), and navigation carries such a quantity |
| Quantity.RunInRange | src/components/QuantityModal.jsx:7-36 | over any sequence of actions from the initial 1, the quantity stays in range and every navigation carries the product and a quantity in range |
| Countdown.CalculateTimeLeft | src/components/Countdown.jsx:13-28 | a non-positive or unknown difference gives all zeros; days is 0; hours below 24 and minutes and seconds below 60; the fields add up to the difference's part within the day, rounded down to whole seconds |
| Countdown.DecomposeDay | src/components/Countdown.jsx:19-22 | hours times 3600000 plus minutes times 60000 plus seconds times 1000 equals the difference mod a day minus the difference mod a second |
| Countdown.TicksDown | src/components/Countdown.jsx:13-34 | one second later, a countdown with more than a second left in the day shows one second less |
| Countdown.FormatTime | src/components/Countdown.jsx:39-41 | the text is all digits and reads back as the number; it is two characters below 10 and the plain numeral otherwise |
| Countdown.DisplayedFieldsTwoDigits | src/components/Countdown.jsx:39-41 | hours, minutes and seconds are always shown with exactly two digits |
| Countdown.TwoDigitsBelowHundred | src/components/Countdown.jsx:39-41 | every number below 100 prints as two characters |
| ProductList.Normalize | src/components/ProductList.jsx:54 | the list is items, else results, else the data itself (an array, or a non-list object), else empty |
| ProductList.HasMore | src/components/ProductList.jsx:63-66 | there is more iff next is truthy, or total is truthy and beyond page times 20, or the page had exactly 20 products |
| ProductList.ArrayHasMoreIffFull | src/components/ProductList.jsx:63-66 | a bare array says there is more exactly when it holds 20 products |
| ProductList.ListRequest | src/components/ProductList.jsx:34-41 | requests ask for 20 products and carry category_id only for a truthy category |
| ProductList.Begin | src/components/ProductList.jsx:28-32 | page 1 shows the initial skeleton, later pages the spinner |
| ProductList.Merge | src/components/ProductList.jsx:56-60 | page 1 or a new category replaces the list; later pages append |
| ProductList.AppendKeepsPrefix | src/components/ProductList.jsx:59 | appending keeps the earlier products, in order, in front of the new page |
| ProductList.Finish | src/components/ProductList.jsx:26-75 | an answer merges the list and recomputes hasMore; an error sets the message and keeps the list; both loading flags are cleared either way |
| ProductList.ResetForCategory | src/components/ProductList.jsx:78-83 | a category change empties the list, sets hasMore and clears the error |
| ProductList.CategorySwitchShowsFirstPage | src/components/ProductList.jsx:78-83 | after a category switch the list is exactly the new category's first page, with no error |
| ProductList.WrappedPageListsItems | src/components/ProductList.jsx:54 | an object body lists exactly its `items` whatever `results` holds, falls back to `results` without `items`, and either wrapping shows what the bare array shows |
| ProductList.NextPage | src/components/ProductList.jsx:92 | the next page is at least 1, a whole page number when the count is a multiple of 20, and fractional otherwise |
| ProductList.ScrollRequest | src/components/ProductList.jsx:86-164 | the observer asks for the next page iff the product grid is on screen (no first-page skeleton, a non-empty array), there is more and nothing is loading; the page asked is the count over 20 plus 1 |
| ProductList.EmptyListNeverScrolls | src/components/ProductList.jsx:144-164 | an empty first page never asks for more, whatever the response says about further pages |
| ProductList.ScrollQueryAfterFullPages | src/components/ProductList.jsx:34-94 | after k full pages the observer's query asks for page k + 1 of 20 products, filtered only by a truthy category (category 0 is the same as none) |
| ProductList.FullPagesAdvance | src/components/ProductList.jsx:26-94 | after k full pages the list holds 20k products and the observer asks for page k + 1 |
| ProductList.ShortPageGivesFractionalNext | src/components/ProductList.jsx:92 | a first page of 7 products whose response still has next leads to a request for page 1.35 |
| OrderSuccess.PickupCode | src/pages/OrderSuccessPage.jsx:126 | the pickup code is the verification code when it is truthy, else 000000 |
| OrderSuccess.ChooseStore | src/pages/OrderSuccessPage.jsx:76-117 | an Apple device without MSStream goes to the App Store first; then Android to Google Play; any other device is asked, OK meaning Google Play |
| OrderSuccess.AppleCheckedFirst | src/pages/OrderSuccessPage.jsx:88-101 | a user agent naming both an iPhone and Android goes to the App Store |
| OrderSuccess.AndroidAnyCase | src/pages/OrderSuccessPage.jsx:96-101 | "Android" is recognised in any letter case |
| OrderSuccess.ShowsNavigation | src/pages/OrderSuccessPage.jsx:9-17 | a navigation state with product, quantity, form and district renders, and shows the response's code when it has one and 000000 otherwise |
| OrderSuccess.PlacedOrderShowsConfirmation | src/pages/OrderSuccessPage.jsx:9-17 | an order placed from a valid checkout opens a confirmation that renders and shows the backend's code or the default |
| OrderSuccess.DirectVisitRedirects | src/pages/OrderSuccessPage.jsx:128-130 | opened without navigation state the page redirects and renders nothing |
| AddressUpdate.Initialize | src/pages/UpdateAddress.jsx:41-75 | the page reaches step 1 with the districts when verification and the district list both succeed; otherwise the step and the district list stay, and the error is the verification response's `detail` or "Vérification échouée", "Impossible de charger les districts" for a non-ok district response, or the message thrown by either request |
| AddressUpdate.Mount | src/pages/UpdateAddress.jsx:31-39 | a missing or empty token shows the invalid-link error and sends no request; otherwise the token is verified |
| AddressUpdate.MissingTokenStops | src/pages/UpdateAddress.jsx:31-36 | without a token the page shows the error screen whatever the backend would answer |
| AddressUpdate.RetryBypassesTokenGuard | src/pages/UpdateAddress.jsx:304-316 | the retry button of the invalid-link screen runs initialisation without the token check and can reach step 1 |
| AddressUpdate.SelectDistrict | src/pages/UpdateAddress.jsx:77-79 | selecting a district records it and moves to step 2, nothing else |
| AddressUpdate.SetCustomMarker | src/pages/UpdateAddress.jsx:124-126 | a pin sets both coordinates and nothing else |
| AddressUpdate.SinglePin | src/pages/UpdateAddress.jsx:124-131 | a second pin leaves no trace of the first |
| AddressUpdate.ConfirmMarker | src/pages/UpdateAddress.jsx:192-199 | confirming moves to step 3 iff both coordinates are present and non-zero, otherwise it alerts and changes nothing |
| AddressUpdate.ZeroCoordinateRefused | src/pages/UpdateAddress.jsx:193-195 | a pin at latitude 0 is refused |
| AddressUpdate.GoBack | src/pages/UpdateAddress.jsx:201-205 | back decrements the step only above step 1 |
| AddressUpdate.GoBackBounded | src/pages/UpdateAddress.jsx:201-205 | going back n times from step k lands on max(1, k − n) |
| AddressUpdate.AddressProblem | src/pages/UpdateAddress.jsx:208-224 | checks in order: empty is "required", under 5 is the minimum, over 200 the maximum, each iff its condition; none iff 5 to 200 |
| AddressUpdate.SubmitAddress | src/pages/UpdateAddress.jsx:207-284 | an invalid address sets its error and sends nothing; a sent body has the trimmed address, the pin and the order number; the rider is notified and step 4 reached iff the back office answers success; otherwise the failure is the TypeError without a verified order, the response's `detail` or "Échec de la mise à jour" for a non-ok response, the body's `message` or that text for a refusal, and the thrown message for a throw |
| AddressUpdate.SubmitReachesDone | src/pages/UpdateAddress.jsx:251-276 | a submission reaches step 4 iff the address is valid, the order is verified and the answer is success |
| AddressUpdate.SubmittedAddressValid | src/pages/UpdateAddress.jsx:208-241 | every submitted address is trimmed and between 5 and 200 characters |
| AddressUpdate.TypeAddress | src/pages/UpdateAddress.jsx:445-447 | the text area keeps at most the first 200 characters of what is typed |
| AddressUpdate.TypedAddressNeverTooLong | src/pages/UpdateAddress.jsx:221-224 | an address entered through the text area never triggers the maximum-length error |
| AddressUpdate.MountConsistent | src/pages/UpdateAddress.jsx:31-75 | the state after mounting satisfies the page invariant |
| AddressUpdate.NextConsistent | src/pages/UpdateAddress.jsx:77-284 | every event, including a late position callback and the end of an update in flight, keeps the invariant: step 0 to 4, no page error past step 0, a district from step 2, both coordinates set from step 3 and while an update is in flight, nothing in flight at step 4, an address of at most 200 characters |
| AddressUpdate.RunConsistent | src/pages/UpdateAddress.jsx:77-284 | every sequence of events from a consistent state ends in a consistent state |
| AddressUpdate.DoneOnlyBySuccess | src/pages/UpdateAddress.jsx:251-276 | step 4 is entered only when a submission the back office accepted ends, and the page stays on it; only a late position callback still changes anything there |
| AddressUpdate.MissingDistrictListCrashes | src/pages/UpdateAddress.jsx:56-75 | a district response without its list leads to a district step that cannot render, where no control is offered |
| AddressUpdate.AskForLocation | src/pages/UpdateAddress.jsx:146-152 | without geolocation support nothing changes (an alert); otherwise one more position request is pending |
| AddressUpdate.OnLocation | src/pages/UpdateAddress.jsx:152-189 | a found position becomes the pin at whatever step the page is on; a failure only alerts; either way the request is no longer pending |
| AddressUpdate.BeginSubmit | src/pages/UpdateAddress.jsx:207-241 | an invalid address sets its error; a valid one clears it and leaves an update in flight only with a verified order |
| AddressUpdate.EndSubmit | src/pages/UpdateAddress.jsx:243-283 | an accepted update shows step 4 from whatever step the page is on; any other ending leaves the step; the submit button comes back either way |
| AddressUpdate.SubmitInTwoSteps | src/pages/UpdateAddress.jsx:207-284 | starting a submission and letting its request end, with nothing in between, gives what the atomic submission gives |
| AddressUpdate.BackDuringSubmitStillDone | src/pages/UpdateAddress.jsx:201-284 | the back button works while an update is in flight, and a later success still shows step 4 |
| AddressUpdate.LateLocationReplacesConfirmedPin | src/pages/UpdateAddress.jsx:146-240 | a position answer arriving after the pin was confirmed replaces it on the address step, and a latitude of 0 is then sent although confirming it would have been refused |
| AddressUpdate.AlertText | src/pages/UpdateAddress.jsx:280 | the failure alert holds the error's message between a fixed prefix and suffix, from which it reads back |
| AddressUpdate.RefusedUpdateAlertsMessage | src/pages/UpdateAddress.jsx:274-280 | a refused update is alerted with the back office's non-empty message, or the generic text without one |
| AddressUpdate.BackKeepsPin | src/pages/UpdateAddress.jsx:201-205 | going back from the map and picking a district again keeps the pin, so confirming works at once |

## Left out

- **Lengths.** Strings are sequences of Unicode scalar values. JavaScript counts `length` and `slice` in UTF-16 code units, so text outside the Basic Multilingual Plane is counted differently.
- **HTTP.**
  - The axios and `fetch` calls are outcome parameters.
  - Response bodies are already decoded. For the `fetch` calls of the address-update page, a body that is not JSON makes `response.json()` throw and is one of the "threw" outcomes. The axios calls (product list, order creation) return such a body as a string; string bodies are not modelled there.
  - The rider notification after an address update is returned as a request. Its outcome is not an input, because the page ignores it.
- **Browser services.**
  - A position request is a pending count on the address-update page. Its callback is a separate event carrying the found position or a failure; the request's timeout is one of the failures. On the checkout page, geolocation is an event carrying the found position.
  - Google Maps rendering, markers and panning are not modelled. The map centre is kept as the raw coordinate text.
  - Timers, animations, the guide modal and `window.open` are not modelled; the choice of store is the result.
  - `alert` and `confirm` become returned texts and a boolean parameter. The step machines (`Next`) keep the state a handler returns; the alert texts are stated on the handlers.
  - Local storage is reduced to its two entries.
  - Cookie writes are returned as the assignment text. The browser's cookie jar is reduced to "the pair before the first `;`" of one assignment (`Conversions.StoredPair`); expiry, paths and other cookies are not modelled.
- **Local storage contents.**
  - Only text the hook itself wrote, or text that does not parse, is considered under `ad_tracking_info`.
  - Foreign JSON there (an array, a number) is not modelled.
  - Storage exceptions (quota, private mode) are not modelled.
- **SHA-256.** It is an uninterpreted function. The hex encoding of the digest is part of that function.
- **Floating point.**
  - Coordinates are `real`, and `parseFloat` of district coordinates is not modelled.
  - `parseFloat` of the event's value and price fields is the identity on the integer amounts.
  - The FCFA to USD Pixel conversion on the confirmation page (`/560`, `toFixed`) is left out.
- **parseInt.** It is modelled for decimal text. The `0x` radix rule is left out; a number input never delivers it.
- **toLowerCase and the `/android/i` test.** Both fold ASCII letters only.
- **Two other tracking events.** `trackAddPaymentInfoEvent` and `trackInitiateCheckoutEvent` are left out. They reuse `buildUserData` and `sendConversionEvent`, which are modelled, and no page calls them.
- **Debugging helpers.** The `window.debugAdTracking` helper and console logging are left out.
- **Other code.** Presentation components, context wrappers around the hook, the API module, configuration and the environment script are left out.
- **Product list crash.** Appending a page when the list or the page is not an array throws inside React's state updater, outside the page's `try`. The model records it as a list that is no longer a list (`Listing.Unlisted`) rather than as the component crash.
- **Checkout.PlaceOrder.** The order payload is built from the form as it is on screen. The page's `adId`, product and quantity come from its context and navigation state and are parameters. The client info is a parameter too: it is whatever `getClientInfo` returned when the page mounted.
- **Order button while sending.** The `isPlacingOrder` flag (PaymentPage.jsx:201, 506-510) disables the button while an order request is in flight, so a second click cannot send a second order. The model treats placing an order as one atomic step and has no in-flight state on the checkout page.
- **Quantity.RunInRange.** Clicks on disabled buttons are skipped rather than delivered. The stock is whatever the product says, and for a product with no stock the initial 1 is allowed.
- **Countdown.CalculateTimeLeft.** A target date that does not parse is `Null` (JavaScript `NaN`). Instants are integer milliseconds.
