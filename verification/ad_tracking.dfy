/** The attribution store: the hook that keeps the visitor's Facebook ad id
    and tracking record across visits in two `localStorage` entries.

    Storage is a value passed in and returned; the two entries are the only
    ones the hook touches. */
module AdTracking {
  import opened Values
  import opened UrlParams

  const AdIdStorageKey := "facebook_ad_id"
  const TrackingInfoKey := "ad_tracking_info"

  /** The text held under `ad_tracking_info`: the serialisation of a tracking
      record the hook wrote, or some text `JSON.parse` rejects. */
  datatype StoredInfo = InfoJson(info: TrackingInfo) | Unparsable(text: string)

  /** A stored text is truthy unless it is empty; a serialised object never is. */
  predicate StoredTruthy(s: Maybe<StoredInfo>) {
    s.Some? && (s.value.Unparsable? ==> s.value.text != "")
  }

  /** The two storage entries. */
  datatype Storage = Storage(adId: Maybe<string>, info: Maybe<StoredInfo>)

  /** The hook's state. */
  datatype Tracking = Tracking(adId: Maybe<string>, trackingInfo: Maybe<TrackingInfo>, isLoading: bool)

  /** The state before initialisation. */
  const Mounted := Tracking(Null, Null, true)

  /** `loadAdIdFromStorage`: the info entry is parsed first and its failure
      aborts the whole read (the catch returns `null` before the id is read);
      the id is taken only when truthy. Returns the new state and the id. */
  function LoadFromStorage(t: Tracking, st: Storage): (r: (Tracking, Maybe<string>))
    ensures r.0.isLoading == t.isLoading
    ensures StoredTruthy(st.info) && st.info.value.Unparsable? ==> r == (t, Null)
    ensures !(StoredTruthy(st.info) && st.info.value.Unparsable?) ==>
              && r.0.trackingInfo == (if st.info.Some? && st.info.value.InfoJson? then Some(st.info.value.info) else t.trackingInfo)
              && r.0.adId == (if Truthy(st.adId) then st.adId else t.adId)
              && r.1 == (if Truthy(st.adId) then st.adId else Null)
  {
    if StoredTruthy(st.info) && st.info.value.Unparsable? then (t, Null)
    else
      var t1 := if StoredTruthy(st.info) then t.(trackingInfo := Some(st.info.value.info)) else t;
      if Truthy(st.adId) then (t1.(adId := st.adId), st.adId) else (t1, Null)
  }

  /** `saveAdIdToStorage(newAdId, newTrackingInfo)`: each entry is written only
      for a truthy value; the other entry is left alone. */
  function Save(st: Storage, newAdId: Maybe<string>, newInfo: Maybe<TrackingInfo>): (r: Storage)
    ensures r.adId == (if Truthy(newAdId) then newAdId else st.adId)
    ensures r.info == (if newInfo.Some? then Some(InfoJson(newInfo.value)) else st.info)
  {
    var st1 := if Truthy(newAdId) then st.(adId := newAdId) else st;
    if newInfo.Some? then st1.(info := Some(InfoJson(newInfo.value))) else st1
  }

  /** The initialisation effect, for a visit whose query string is `q` (the
      clock and the location feed the tracking record). */
  function Init(t: Tracking, q: Query, st: Storage, capturedAt: string, href: string): (r: (Tracking, Storage))
    ensures !r.0.isLoading
    ensures AdIdFromUrl(q).Some? ==>
              && r.0.adId == AdIdFromUrl(q)
              && r.0.trackingInfo == Some(AdTrackingInfo(q, capturedAt, href))
              && r.1 == Storage(AdIdFromUrl(q), Some(InfoJson(AdTrackingInfo(q, capturedAt, href))))
    ensures AdIdFromUrl(q).Null? ==> r.1 == st && r.0 == LoadFromStorage(t, st).0.(isLoading := false)
  {
    var urlAdId := AdIdFromUrl(q);
    if Truthy(urlAdId) then
      var info := AdTrackingInfo(q, capturedAt, href);
      (Tracking(urlAdId, Some(info), false), Save(st, urlAdId, Some(info)))
    else
      (LoadFromStorage(t, st).0.(isLoading := false), st)
  }

  /** Without an ad id in the URL, the id after initialisation is the stored
      one or nothing: a TikTok-only visit never produces one of its own. */
  lemma NoUrlIdKeepsStoredId(q: Query, st: Storage, capturedAt: string, href: string)
    requires AdIdFromUrl(q).Null?
    ensures var r := Init(Mounted, q, st, capturedAt, href);
            && r.1 == st
            && (r.0.adId.Null? || r.0.adId == st.adId)
            && (Truthy(st.adId) && !StoredTruthy(st.info) ==> r.0.adId == st.adId)
  {
  }

  /** A URL id replaces whatever was stored before, in the state and in both
      storage entries. */
  lemma UrlIdOverwritesStored(q: Query, st: Storage, capturedAt: string, href: string)
    requires AdIdFromUrl(q).Some? && Truthy(st.adId) && st.adId != AdIdFromUrl(q)
    ensures var r := Init(Mounted, q, st, capturedAt, href);
            r.0.adId == AdIdFromUrl(q) && r.1.adId == AdIdFromUrl(q) && r.1.adId != st.adId
  {
  }

  /** The id a visit takes from its URL is restored on a later visit without
      one, together with the tracking record. */
  lemma UrlIdPersists(q1: Query, q2: Query, st: Storage, at1: string, at2: string, href1: string, href2: string)
    requires AdIdFromUrl(q1).Some? && AdIdFromUrl(q2).Null?
    ensures var first := Init(Mounted, q1, st, at1, href1);
            var second := Init(Mounted, q2, first.1, at2, href2);
            second.0 == Tracking(AdIdFromUrl(q1), Some(AdTrackingInfo(q1, at1, href1)), false)
  {
  }

  /** A stored info entry that cannot be parsed hides the stored id as well. */
  lemma UnparsableInfoHidesId(q: Query, id: string, text: string, capturedAt: string, href: string)
    requires AdIdFromUrl(q).Null? && id != "" && text != ""
    ensures Init(Mounted, q, Storage(Some(id), Some(Unparsable(text))), capturedAt, href).0
            == Tracking(Null, Null, false)
  {
  }

  /** `clearAdId`: both entries removed, id and record dropped. */
  function Clear(t: Tracking, st: Storage): (r: (Tracking, Storage))
    ensures r.0.adId.Null? && r.0.trackingInfo.Null? && r.0.isLoading == t.isLoading
    ensures r.1.adId.Null? && r.1.info.Null?
  {
    (t.(adId := Null, trackingInfo := Null), Storage(Null, Null))
  }

  /** After clearing, a visit without an ad id in the URL has none. */
  lemma ClearForgets(t: Tracking, st: Storage, q: Query, capturedAt: string, href: string)
    requires AdIdFromUrl(q).Null?
    ensures var c := Clear(t, st);
            Init(Mounted, q, c.1, capturedAt, href).0 == Tracking(Null, Null, false)
  {
  }

  /** `setAdIdManually(newAdId)`: a falsy id is ignored; otherwise the id is set
      in the state and stored, and the record is left as it was. */
  function SetManually(t: Tracking, st: Storage, newAdId: Maybe<string>): (r: (Tracking, Storage))
    ensures !Truthy(newAdId) ==> r == (t, st)
    ensures Truthy(newAdId) ==>
              r.0 == t.(adId := newAdId) && r.1 == st.(adId := newAdId)
  {
    if Truthy(newAdId) then (t.(adId := newAdId), Save(st, newAdId, Null)) else (t, st)
  }

  /** A manually set id survives to the next visit without a URL id, as long
      as the record entry is readable. */
  lemma ManualIdPersists(t: Tracking, st: Storage, id: string, q: Query, capturedAt: string, href: string)
    requires id != "" && AdIdFromUrl(q).Null?
    requires !(StoredTruthy(st.info) && st.info.value.Unparsable?)
    ensures var m := SetManually(t, st, Some(id));
            Init(Mounted, q, m.1, capturedAt, href).0.adId == Some(id)
  {
  }

  /** `hasAdId`. */
  predicate HasAdId(t: Tracking) {
    Truthy(t.adId)
  }

  /** What `getCurrentTrackingInfo()` reports. */
  datatype CurrentInfo = CurrentInfo(
    adId: Maybe<string>,
    trackingInfo: Maybe<TrackingInfo>,
    hasAdId: bool,
    storageKey: string,
    capturedAt: Maybe<string>)

  /** `getCurrentTrackingInfo()`: `captured_at` is the record's timestamp when
      there is a record with a non-empty one, `null` otherwise. */
  function CurrentTrackingInfo(t: Tracking): (r: CurrentInfo)
    ensures r.adId == t.adId && r.trackingInfo == t.trackingInfo
    ensures r.hasAdId <==> HasAdId(t)
    ensures r.storageKey == AdIdStorageKey
    ensures Truthy(r.capturedAt) <==> t.trackingInfo.Some? && t.trackingInfo.value.capturedAt != ""
    ensures r.capturedAt.Some? ==> t.trackingInfo.Some? && r.capturedAt.value == t.trackingInfo.value.capturedAt
  {
    var captured :=
      if t.trackingInfo.Some? && t.trackingInfo.value.capturedAt != "" then Some(t.trackingInfo.value.capturedAt)
      else Null;
    CurrentInfo(t.adId, t.trackingInfo, HasAdId(t), AdIdStorageKey, captured)
  }

  /** After a visit with a URL id, the store reports the id and the visit's
      timestamp. */
  lemma CurrentInfoAfterUrlVisit(q: Query, st: Storage, capturedAt: string, href: string)
    requires AdIdFromUrl(q).Some? && capturedAt != ""
    ensures var c := CurrentTrackingInfo(Init(Mounted, q, st, capturedAt, href).0);
            c.hasAdId && c.adId == AdIdFromUrl(q) && c.capturedAt == Some(capturedAt)
  {
  }
}
