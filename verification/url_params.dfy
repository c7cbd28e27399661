/** Ad attribution read from the page's query string: the Facebook ad id
    carried in `utm_content`, the Facebook/TikTok source classification and
    the tracking record built from them.

    The query string is given as its decoded `name=value` pairs, in order;
    reading a parameter is `URLSearchParams.get`, which answers the first
    pair with that name. */
module UrlParams {
  import opened Values
  import opened JsString

  type Query = seq<(string, string)>

  /** `getUrlParam(name)`: the value of the first pair named `name`, if any. */
  function Param(q: Query, name: string): (r: Maybe<string>)
    ensures r.Null? <==> forall i :: 0 <= i < |q| ==> q[i].0 != name
    ensures r.Some? ==> exists i :: 0 <= i < |q| && q[i] == (name, r.value)
                                   && forall j :: 0 <= j < i ==> q[j].0 != name
  {
    if q == [] then Null
    else if q[0].0 == name then
      assert q[0] == (name, q[0].1);
      Some(q[0].1)
    else
      var r := Param(q[1..], name);
      if r.Some? then
        var i :| 0 <= i < |q[1..]| && q[1..][i] == (name, r.value)
                 && forall j :: 0 <= j < i ==> q[1..][j].0 != name;
        assert q[i + 1] == (name, r.value);
        r
      else r
  }

  /** The seven parameter names `getUtmParams` copies. */
  const UtmKeys: set<string> :=
    {"utm_source", "utm_medium", "utm_campaign", "utm_content", "utm_term", "utm_id", "fbclid"}

  /** `getUtmParams()`: an object with exactly the seven keys, each holding the
      raw parameter value or `null`. */
  function UtmParams(q: Query): (r: map<string, Maybe<string>>)
    ensures r.Keys == UtmKeys
    ensures forall k :: k in r ==> r[k] == Param(q, k)
  {
    map k | k in UtmKeys :: Param(q, k)
  }

  /** `getAdIdFromUrl()`: the trimmed `utm_content` when it is a non-empty run
      of ASCII digits, `null` otherwise (also when the parameter is missing or
      empty). */
  function AdIdFromUrl(q: Query): (r: Maybe<string>)
    ensures !Truthy(Param(q, "utm_content")) ==> r.Null?
    ensures r.Some? <==> Truthy(Param(q, "utm_content"))
                         && IsAdId(Trim(Param(q, "utm_content").value))
    ensures r.Some? ==> r.value == Trim(Param(q, "utm_content").value) && IsAdId(r.value)
  {
    var content := Param(q, "utm_content");
    if !Truthy(content) then Null
    else
      var adId := Trim(content.value);
      if IsAdId(adId) then Some(adId) else Null
  }

  /** `/^\d+$/`: one or more ASCII digits and nothing else. */
  predicate IsAdId(s: string) {
    s != [] && AllDigits(s)
  }

  /** A digit run surrounded by whitespace in `utm_content` is extracted intact,
      whatever parameters come after it. */
  lemma AdIdFromPaddedContent(pre: string, id: string, post: string, rest: Query)
    requires AllWhitespace(pre) && AllWhitespace(post) && IsAdId(id)
    ensures AdIdFromUrl([("utm_content", pre + id + post)] + rest) == Some(id)
  {
    var q := [("utm_content", pre + id + post)] + rest;
    assert q[0] == ("utm_content", pre + id + post);
    assert IsDigit(id[0]) && IsDigit(id[|id| - 1]);
    TrimPadded(pre, id, post);
  }

  /** A `utm_content` holding anything but digits after trimming yields no id. */
  lemma NonDigitContentHasNoAdId(q: Query, k: nat)
    requires Param(q, "utm_content").Some?
    requires k < |Trim(Param(q, "utm_content").value)|
    requires !IsDigit(Trim(Param(q, "utm_content").value)[k])
    ensures AdIdFromUrl(q).Null?
  {
  }

  /** `isFromFacebookAd()`: a Facebook source with a paid medium, or any
      non-empty `fbclid`. */
  function IsFromFacebookAd(q: Query): (r: bool)
    ensures Truthy(Param(q, "fbclid")) ==> r
    ensures !Truthy(Param(q, "fbclid")) ==>
              (r <==> Param(q, "utm_source") in {Some("fb"), Some("facebook")}
                      && Param(q, "utm_medium") in {Some("paid"), Some("cpc")})
  {
    var source := Param(q, "utm_source");
    var medium := Param(q, "utm_medium");
    ((source == Some("fb") || source == Some("facebook")) && (medium == Some("paid") || medium == Some("cpc")))
    || Truthy(Param(q, "fbclid"))
  }

  /** `isFromTikTokAd()`. */
  function IsFromTikTokAd(q: Query): (r: bool)
    ensures r <==> Param(q, "utm_source") in {Some("tiktok"), Some("tt")}
  {
    var source := Param(q, "utm_source");
    source == Some("tiktok") || source == Some("tt")
  }

  /** The text `getAdSource` reports for a TikTok visit. */
  const TikTokSource := "tiktok"

  /** `getAdSource()`: the numeric Facebook ad id if there is one, else
      "tiktok" for a TikTok source, else `null`. */
  function AdSource(q: Query): (r: Maybe<string>)
    ensures AdIdFromUrl(q).Some? ==> r == AdIdFromUrl(q)
    ensures AdIdFromUrl(q).Null? && IsFromTikTokAd(q) ==> r == Some(TikTokSource)
    ensures r.Null? <==> AdIdFromUrl(q).Null? && !IsFromTikTokAd(q)
  {
    var fbAdId := AdIdFromUrl(q);
    if Truthy(fbAdId) then fbAdId
    else if IsFromTikTokAd(q) then Some(TikTokSource)
    else Null
  }

  /** The two kinds of ad source cannot be confused: a reported source is
      either an all-digit ad id or the TikTok marker, never both. */
  lemma AdSourceKinds(q: Query)
    ensures AdSource(q).Some? ==> IsAdId(AdSource(q).value) != (AdSource(q).value == TikTokSource)
  {
    assert !IsDigit(TikTokSource[0]);
  }

  /** A numeric ad id wins over a TikTok source named in the same URL. */
  lemma NumericIdTakesPrecedence(id: string, rest: Query)
    requires IsAdId(id)
    ensures AdSource([("utm_content", id), ("utm_source", TikTokSource)] + rest) == Some(id)
    ensures IsFromTikTokAd([("utm_content", id), ("utm_source", TikTokSource)] + rest)
  {
    var q := [("utm_content", id), ("utm_source", TikTokSource)] + rest;
    assert q[0] == ("utm_content", id) && q[1] == ("utm_source", TikTokSource);
    assert Param(q, "utm_source") == Some(TikTokSource) by {
      assert q[1..] == [("utm_source", TikTokSource)] + rest;
    }
    AdIdFromPaddedContent([], id, [], [("utm_source", TikTokSource)] + rest);
    assert [] + id + [] == id;
  }

  /** The record `getAdTrackingInfo()` builds; `captured_at` and `url` come
      from the clock and the location and are parameters here. */
  datatype TrackingInfo = TrackingInfo(
    adId: Maybe<string>,
    utmParams: map<string, Maybe<string>>,
    isFromFacebook: bool,
    isFromTiktok: bool,
    capturedAt: string,
    url: string)

  /** `getAdTrackingInfo()`: the tracking record of the current visit. */
  function AdTrackingInfo(q: Query, capturedAt: string, href: string): (r: TrackingInfo)
    ensures r.adId == AdSource(q)
    ensures r.utmParams.Keys == UtmKeys && forall k :: k in r.utmParams ==> r.utmParams[k] == Param(q, k)
    ensures r.isFromFacebook == IsFromFacebookAd(q) && r.isFromTiktok == IsFromTikTokAd(q)
    ensures r.capturedAt == capturedAt && r.url == href
  {
    TrackingInfo(AdSource(q), UtmParams(q), IsFromFacebookAd(q), IsFromTikTokAd(q), capturedAt, href)
  }

  /** When the URL carries a Facebook ad id, the tracking record names exactly
      that id. */
  lemma TrackingInfoCarriesUrlAdId(q: Query, capturedAt: string, href: string)
    requires AdIdFromUrl(q).Some?
    ensures AdTrackingInfo(q, capturedAt, href).adId == AdIdFromUrl(q)
    ensures AdTrackingInfo(q, capturedAt, href).utmParams["utm_content"].Some?
  {
  }

  /** A parameter outside the seven leaves the UTM object as it was. */
  lemma UtmParamsIgnoresOthers(q: Query, name: string, value: string)
    requires name !in UtmKeys
    ensures UtmParams([(name, value)] + q) == UtmParams(q)
  {
    var q' := [(name, value)] + q;
    assert q'[1..] == q;
    forall k | k in UtmKeys
      ensures Param(q', k) == Param(q, k)
    {
    }
  }

  /** The Facebook test read off a UTM object instead of the URL. */
  predicate FacebookByUtm(m: map<string, Maybe<string>>)
    requires UtmKeys <= m.Keys
  {
    (m["utm_source"] in {Some("fb"), Some("facebook")} && m["utm_medium"] in {Some("paid"), Some("cpc")})
    || Truthy(m["fbclid"])
  }

  /** The tracking record agrees with itself: both ad flags can be recomputed
      from the UTM object it carries, and a numeric ad id is the trimmed
      `utm_content` it carries. */
  lemma TrackingRecordSelfConsistent(q: Query, capturedAt: string, href: string)
    ensures var r := AdTrackingInfo(q, capturedAt, href);
            && r.isFromFacebook == FacebookByUtm(r.utmParams)
            && r.isFromTiktok == (r.utmParams["utm_source"] in {Some("tiktok"), Some("tt")})
            && (r.adId.Some? && IsAdId(r.adId.value) ==>
                  r.utmParams["utm_content"].Some? && Trim(r.utmParams["utm_content"].value) == r.adId.value)
  {
    var r := AdTrackingInfo(q, capturedAt, href);
    assert "utm_source" in UtmKeys && "utm_medium" in UtmKeys && "fbclid" in UtmKeys && "utm_content" in UtmKeys;
    assert !IsDigit(TikTokSource[0]);
  }

  /** A visit whose URL carries only a click id counts as a Facebook visit, yet
      has no ad source to report. */
  lemma ClickIdOnlyVisit(clickId: string)
    requires clickId != []
    ensures IsFromFacebookAd([("fbclid", clickId)])
    ensures !IsFromTikTokAd([("fbclid", clickId)]) && AdSource([("fbclid", clickId)]).Null?
  {
    var q := [("fbclid", clickId)];
    assert Param(q, "fbclid") == Some(clickId);
    assert Param(q, "utm_source").Null? && Param(q, "utm_content").Null?;
  }
}
