/**
 * The server-side speaker store: records keyed by id, the set of existing
 * activities and the registered media (uuid to alias). Each service method
 * either fails with an HTTP error and leaves the records as they were, or
 * commits its change.
 */
module SpeakerStore {
  import opened Wrappers
  import opened Text
  import opened Slugs
  import opened JsValues

  /** A stored speaker row. */
  datatype Speaker = Speaker(
    id: int, name: string, role: Option<string>, description: Option<string>,
    image: Option<string>, activityId: Option<int>, order: Option<int>,
    linkedin: Option<string>, facebook: Option<string>, instagram: Option<string>, youtube: Option<string>)

  /** A request field that the client either sent (Set) or left out (Unset). */
  datatype Field<T> = Unset | Set(value: T)

  /** The fields the service reads from a create or update request; the name is always present. */
  datatype SpeakerRequest = SpeakerRequest(
    name: string, role: Field<Option<string>>, description: Field<Option<string>>,
    image: Field<Option<string>>, activityId: Field<Option<int>>, order: Field<Option<int>>,
    linkedin: Field<Option<string>>, facebook: Field<Option<string>>,
    instagram: Field<Option<string>>, youtube: Field<Option<string>>)

  /** The value a request attribute reads as: the sent value, or None when left out. */
  function OrNone<T>(f: Field<Option<T>>): (r: Option<T>)
    ensures f.Unset? ==> r == None
    ensures f.Set? ==> r == f.value
  {
    if f.Set? then f.value else None
  }

  datatype HttpError = HttpError(status: int, detail: string)

  const SpeakerNotFound := HttpError(404, "Speaker not found")
  const ActivityNotFound := HttpError(404, "Activity not found")
  const NoImage := HttpError(404, "Speaker has no image")

  predicate TruthyId(a: Option<int>) {
    a.Some? && a.value != 0
  }

  predicate TruthyText(t: Option<string>) {
    t.Some? && t.value != ""
  }

  /** A falsy activity id needs no activity; a truthy one must name an existing activity. */
  predicate ActivityOkIn(a: Option<int>, activities: set<int>) {
    !TruthyId(a) || a.value in activities
  }

  // ---------------------------------------------------------------------------
  // Media

  /** What a media registration yields: the uuid the media service assigns and the uuid4 put in its alias. */
  datatype FreshMedia = FreshMedia(mediaUuid: string, aliasUuid: string)

  /**
   * A media alias `f"{slugify(name)}-{uuid4()}"`, kept as the name and the
   * uuid4 it is built from; AliasText gives its text.
   */
  datatype Alias = Alias(name: string, aliasUuid: string)

  function AliasText(a: Alias): string {
    Slugify(a.name) + "-" + a.aliasUuid
  }

  /** An alias text is the slug of the name, then `-`, then the uuid; the slug part is a slug. */
  lemma AliasTextParts(a: Alias)
    ensures var t := AliasText(a); var k := |Slugify(a.name)|;
      && k < |t| && IsSlug(t[..k]) && t[k] == '-' && t[k + 1..] == a.aliasUuid
  {
    SlugifyShape(a.name);
    var t := AliasText(a);
    var k := |Slugify(a.name)|;
    assert t[..k] == Slugify(a.name);
    assert t[k + 1..] == a.aliasUuid;
  }

  /** `not image or not is_valid_url(image)`: a create must register media for the image. */
  predicate NeedsMedia(img: Option<string>, isUrl: string -> bool) {
    !TruthyText(img) || !isUrl(img.value)
  }

  /** The image a created record stores: a valid URL as sent, otherwise the uuid of fresh media. */
  function StoredImage(req: SpeakerRequest, reg: FreshMedia, isUrl: string -> bool): (r: Option<string>)
    ensures NeedsMedia(OrNone(req.image), isUrl) ==> r == Some(reg.mediaUuid)
    ensures !NeedsMedia(OrNone(req.image), isUrl) ==> r == OrNone(req.image) && isUrl(r.value)
  {
    if NeedsMedia(OrNone(req.image), isUrl) then Some(reg.mediaUuid) else OrNone(req.image)
  }

  /** The media table after a create's image handling. */
  function MediaAfterCreate(media: map<string, Alias>, req: SpeakerRequest, reg: FreshMedia, isUrl: string -> bool): (m: map<string, Alias>)
    ensures NeedsMedia(OrNone(req.image), isUrl) ==> m == media[reg.mediaUuid := Alias(req.name, reg.aliasUuid)]
    ensures !NeedsMedia(OrNone(req.image), isUrl) ==> m == media
  {
    if NeedsMedia(OrNone(req.image), isUrl) then media[reg.mediaUuid := Alias(req.name, reg.aliasUuid)] else media
  }

  /** The "handle image" step of `create` and `create_many`. */
  method HandleImage(req: SpeakerRequest, reg: FreshMedia, media0: map<string, Alias>, isUrl: string -> bool)
    returns (image: Option<string>, media: map<string, Alias>)
    ensures image == StoredImage(req, reg, isUrl)
    ensures media == MediaAfterCreate(media0, req, reg, isUrl)
  {
    image := OrNone(req.image);
    media := media0;
    if NeedsMedia(image, isUrl) {
      media := media[reg.mediaUuid := Alias(req.name, reg.aliasUuid)];
      image := Some(reg.mediaUuid);
    }
  }

  /** The record a create builds from the request, before the database assigns anything else. */
  function NewRecord(id: int, req: SpeakerRequest, image: Option<string>, order: Option<int>): Speaker {
    Speaker(id, req.name, OrNone(req.role), OrNone(req.description), image, OrNone(req.activityId), order,
      OrNone(req.linkedin), OrNone(req.facebook), OrNone(req.instagram), OrNone(req.youtube))
  }

  /** The record fields other than id, image and order are the request's. */
  predicate CopiesRequest(s: Speaker, req: SpeakerRequest) {
    && s.name == req.name && s.role == OrNone(req.role) && s.description == OrNone(req.description)
    && s.activityId == OrNone(req.activityId)
    && s.linkedin == OrNone(req.linkedin) && s.facebook == OrNone(req.facebook)
    && s.instagram == OrNone(req.instagram) && s.youtube == OrNone(req.youtube)
  }

  // ---------------------------------------------------------------------------
  // Listing order

  /** `order ASC` with NULL first, as SQLite sorts. */
  predicate OrderBefore(a: Option<int>, b: Option<int>) {
    (a.None? && b.Some?) || (a.Some? && b.Some? && a.value < b.value)
  }

  /** a may be listed before b: by order, then by name. */
  predicate ListedBefore(a: Speaker, b: Speaker) {
    OrderBefore(a.order, b.order) || (a.order == b.order && !StrLess(b.name, a.name))
  }

  ghost predicate InListingOrder(s: seq<Speaker>) {
    forall i, j :: 0 <= i < j < |s| ==> ListedBefore(s[i], s[j])
  }

  lemma ListedBeforeTotal(a: Speaker, b: Speaker)
    ensures ListedBefore(a, b) || ListedBefore(b, a)
  {
    if a.order == b.order && StrLess(b.name, a.name) {
      StrLessAsymmetric(b.name, a.name);
    }
  }

  lemma ListedBeforeTransitive(a: Speaker, b: Speaker, c: Speaker)
    requires ListedBefore(a, b) && ListedBefore(b, c)
    ensures ListedBefore(a, c)
  {
    if a.order == b.order && b.order == c.order && StrLess(c.name, a.name) {
      if a.name == b.name {
      } else {
        StrLessTotal(a.name, b.name);
        if StrLess(a.name, b.name) {
          StrLessTransitive(c.name, a.name, b.name);
        }
      }
    }
  }

  /** Puts x before the first record it may be listed before. */
  function InsertListed(x: Speaker, s: seq<Speaker>): (r: seq<Speaker>)
    ensures multiset(r) == multiset(s) + multiset{x}
  {
    if s == [] then [x]
    else if ListedBefore(x, s[0]) then [x] + s
    else
      assert s == [s[0]] + s[1..];
      [s[0]] + InsertListed(x, s[1..])
  }

  lemma {:induction false} InsertListedSorted(x: Speaker, s: seq<Speaker>)
    requires InListingOrder(s)
    ensures InListingOrder(InsertListed(x, s))
  {
    if s == [] {
    } else if ListedBefore(x, s[0]) {
      forall j | 0 <= j < |s| ensures ListedBefore(x, s[j]) {
        if j > 0 {
          ListedBeforeTransitive(x, s[0], s[j]);
        }
      }
      ConsListed(x, s);
    } else {
      ListedBeforeTotal(x, s[0]);
      var rest := InsertListed(x, s[1..]);
      assert InListingOrder(s[1..]) by {
        forall i, j | 0 <= i < j < |s[1..]| ensures ListedBefore(s[1..][i], s[1..][j]) {
          assert s[1..][i] == s[i + 1] && s[1..][j] == s[j + 1];
        }
      }
      InsertListedSorted(x, s[1..]);
      forall j | 0 <= j < |rest| ensures ListedBefore(s[0], rest[j]) {
        assert rest[j] in multiset(s[1..]) + multiset{x};
        if rest[j] != x {
          assert rest[j] in s[1..];
          var k :| 0 <= k < |s[1..]| && s[1..][k] == rest[j];
          assert s[k + 1] == rest[j];
        }
      }
      ConsListed(s[0], rest);
    }
  }

  /** A record listed before every record of a list in order may go in front of it. */
  lemma ConsListed(y: Speaker, rest: seq<Speaker>)
    requires InListingOrder(rest)
    requires forall j :: 0 <= j < |rest| ==> ListedBefore(y, rest[j])
    ensures InListingOrder([y] + rest)
  {
    var r := [y] + rest;
    forall i, j | 0 <= i < j < |r| ensures ListedBefore(r[i], r[j]) {
      if i > 0 {
        assert r[i] == rest[i - 1] && r[j] == rest[j - 1];
      } else {
        assert r[j] == rest[j - 1];
      }
    }
  }

  /** The `activity_id == X` filter of `get_all`; no filter when X is None. */
  predicate InActivity(s: Speaker, activityId: Option<int>) {
    activityId.None? || s.activityId == activityId
  }

  // ---------------------------------------------------------------------------
  // Update: the image decision and the field overwrite

  /** The branch `update` takes for the image. */
  datatype ImageAction = KeepImage | ReplaceWithUrl(url: string) | KeepStored | RegisterFresh | SetImage(value: string)

  /**
   * The decision table of `update`: a falsy new image changes nothing; a
   * stored uuid gives way only to a URL; a stored URL given a non-URL gets
   * fresh media; in every other case the new value is stored.
   */
  function DecideImage(stored: Option<string>, newImage: Option<string>, isUuid: string -> bool, isUrl: string -> bool): (a: ImageAction)
    ensures !TruthyText(newImage) ==> a == KeepImage
    ensures TruthyText(newImage) && stored.Some? && isUuid(stored.value) ==>
      a == (if isUrl(newImage.value) then ReplaceWithUrl(newImage.value) else KeepStored)
    ensures TruthyText(newImage) && !(stored.Some? && isUuid(stored.value)) ==>
      a == (if stored.Some? && isUrl(stored.value) && !isUrl(newImage.value) then RegisterFresh else SetImage(newImage.value))
  {
    if !TruthyText(newImage) then KeepImage
    else if stored.Some? && isUuid(stored.value) && isUrl(newImage.value) then ReplaceWithUrl(newImage.value)
    else if stored.Some? && isUuid(stored.value) && !isUrl(newImage.value) then KeepStored
    else if stored.Some? && isUrl(stored.value) && !isUrl(newImage.value) then RegisterFresh
    else SetImage(newImage.value)
  }

  /** The image stored after the decision. */
  function ImageAfter(stored: Option<string>, a: ImageAction, reg: FreshMedia): Option<string> {
    match a
    case KeepImage => stored
    case ReplaceWithUrl(url) => Some(url)
    case KeepStored => stored
    case RegisterFresh => Some(reg.mediaUuid)
    case SetImage(v) => Some(v)
  }

  /**
   * What the decision table guarantees about the stored image: it is the old
   * one, the new one, or fresh media; a stored uuid is only ever replaced by a
   * URL; fresh media replaces only a URL, and only when the new value is not one.
   */
  lemma ImageDecisionProperties(stored: Option<string>, newImage: Option<string>, reg: FreshMedia, isUuid: string -> bool, isUrl: string -> bool)
    ensures var img := ImageAfter(stored, DecideImage(stored, newImage, isUuid, isUrl), reg);
      && (img == stored || (TruthyText(newImage) && img == newImage) || img == Some(reg.mediaUuid))
      && (!TruthyText(newImage) ==> img == stored)
      && (stored.Some? && isUuid(stored.value) ==> img == stored || (img == newImage && isUrl(newImage.value)))
      && (img != stored && img == Some(reg.mediaUuid) && img != newImage ==>
            stored.Some? && isUrl(stored.value) && !isUrl(newImage.value))
  {
  }

  /** The media table after the decision: the old uuid is unregistered for a URL, fresh media is registered under the old name. */
  function MediaAfterUpdate(media: map<string, Alias>, before: Speaker, a: ImageAction, reg: FreshMedia): map<string, Alias> {
    match a
    case ReplaceWithUrl(_) => if before.image.Some? then media - {before.image.value} else media
    case RegisterFresh => media[reg.mediaUuid := Alias(before.name, reg.aliasUuid)]
    case _ => media
  }

  /** The attributes a request may set. */
  datatype FieldKey = KName | KRole | KDescription | KImage | KActivity | KOrder | KLinkedin | KFacebook | KInstagram | KYoutube

  /** One `(key, value)` item of the request dump. */
  datatype FieldValue =
    | NameV(name: string) | RoleV(role: Option<string>) | DescriptionV(description: Option<string>)
    | ImageV(image: Option<string>) | ActivityV(activityId: Option<int>) | OrderV(order: Option<int>)
    | LinkedinV(linkedin: Option<string>) | FacebookV(facebook: Option<string>)
    | InstagramV(instagram: Option<string>) | YoutubeV(youtube: Option<string>)

  function KeyOf(v: FieldValue): FieldKey {
    match v
    case NameV(_) => KName
    case RoleV(_) => KRole
    case DescriptionV(_) => KDescription
    case ImageV(_) => KImage
    case ActivityV(_) => KActivity
    case OrderV(_) => KOrder
    case LinkedinV(_) => KLinkedin
    case FacebookV(_) => KFacebook
    case InstagramV(_) => KInstagram
    case YoutubeV(_) => KYoutube
  }

  /** `getattr(speaker, key)`. */
  function Get(s: Speaker, k: FieldKey): (v: FieldValue)
    ensures KeyOf(v) == k
  {
    match k
    case KName => NameV(s.name)
    case KRole => RoleV(s.role)
    case KDescription => DescriptionV(s.description)
    case KImage => ImageV(s.image)
    case KActivity => ActivityV(s.activityId)
    case KOrder => OrderV(s.order)
    case KLinkedin => LinkedinV(s.linkedin)
    case KFacebook => FacebookV(s.facebook)
    case KInstagram => InstagramV(s.instagram)
    case KYoutube => YoutubeV(s.youtube)
  }

  /** `setattr(speaker, key, value)`: that attribute takes the value, the others and the id stay. */
  function SetField(s: Speaker, v: FieldValue): (r: Speaker)
    ensures r.id == s.id
    ensures forall k :: Get(r, k) == if k == KeyOf(v) then v else Get(s, k)
  {
    match v
    case NameV(x) => s.(name := x)
    case RoleV(x) => s.(role := x)
    case DescriptionV(x) => s.(description := x)
    case ImageV(x) => s.(image := x)
    case ActivityV(x) => s.(activityId := x)
    case OrderV(x) => s.(order := x)
    case LinkedinV(x) => s.(linkedin := x)
    case FacebookV(x) => s.(facebook := x)
    case InstagramV(x) => s.(instagram := x)
    case YoutubeV(x) => s.(youtube := x)
  }

  /** The client sent attribute k (the name is always sent). */
  predicate WasSent(req: SpeakerRequest, k: FieldKey) {
    match k
    case KName => true
    case KRole => req.role.Set?
    case KDescription => req.description.Set?
    case KImage => req.image.Set?
    case KActivity => req.activityId.Set?
    case KOrder => req.order.Set?
    case KLinkedin => req.linkedin.Set?
    case KFacebook => req.facebook.Set?
    case KInstagram => req.instagram.Set?
    case KYoutube => req.youtube.Set?
  }

  /**
   * The dump entry for one attribute: present exactly when the request sent
   * it, and then holding the value the request gives that attribute (the
   * value a record built from the request reads).
   */
  function RequestEntry(req: SpeakerRequest, k: FieldKey): (r: Option<FieldValue>)
    ensures r.Some? <==> WasSent(req, k)
    ensures r.Some? ==> KeyOf(r.value) == k
    ensures r.Some? ==> r.value == Get(NewRecord(0, req, OrNone(req.image), OrNone(req.order)), k)
    ensures k == KName ==> r == Some(NameV(req.name))
  {
    match k
    case KName => Some(NameV(req.name))
    case KRole => if req.role.Set? then Some(RoleV(req.role.value)) else None
    case KDescription => if req.description.Set? then Some(DescriptionV(req.description.value)) else None
    case KImage => if req.image.Set? then Some(ImageV(req.image.value)) else None
    case KActivity => if req.activityId.Set? then Some(ActivityV(req.activityId.value)) else None
    case KOrder => if req.order.Set? then Some(OrderV(req.order.value)) else None
    case KLinkedin => if req.linkedin.Set? then Some(LinkedinV(req.linkedin.value)) else None
    case KFacebook => if req.facebook.Set? then Some(FacebookV(req.facebook.value)) else None
    case KInstagram => if req.instagram.Set? then Some(InstagramV(req.instagram.value)) else None
    case KYoutube => if req.youtube.Set? then Some(YoutubeV(req.youtube.value)) else None
  }

  /** The attributes in declaration order. */
  const FieldOrder: seq<FieldKey> := [KName, KRole, KDescription, KImage, KActivity, KOrder, KLinkedin, KFacebook, KInstagram, KYoutube]

  /** `model_dump(exclude_unset=True)` restricted to the given keys: the set attributes, in order. */
  function Dump(req: SpeakerRequest, keys: seq<FieldKey>): seq<FieldValue> {
    if keys == [] then []
    else (match RequestEntry(req, keys[0]) case Some(v) => [v] case None => []) + Dump(req, keys[1..])
  }

  /** The value the last item with key k carries, if any: what a run of `setattr` leaves behind. */
  function Lookup(items: seq<FieldValue>, k: FieldKey): (r: Option<FieldValue>)
    ensures r.Some? ==> KeyOf(r.value) == k
  {
    if items == [] then None
    else if KeyOf(items[|items| - 1]) == k then Some(items[|items| - 1])
    else Lookup(items[..|items| - 1], k)
  }

  lemma {:induction false} LookupAppend(a: seq<FieldValue>, b: seq<FieldValue>, k: FieldKey)
    ensures Lookup(a + b, k) == if Lookup(b, k).Some? then Lookup(b, k) else Lookup(a, k)
  {
    if b != [] {
      var ab := a + b;
      assert ab[..|ab| - 1] == a + b[..|b| - 1];
      assert ab[|ab| - 1] == b[|b| - 1];
      LookupAppend(a, b[..|b| - 1], k);
    } else {
      assert a + b == a;
    }
  }

  /** In a dump over distinct keys, the entry for k is the request's own, or none when k is not among them. */
  lemma {:induction false} DumpLookup(req: SpeakerRequest, keys: seq<FieldKey>, k: FieldKey)
    requires forall i, j :: 0 <= i < j < |keys| ==> keys[i] != keys[j]
    ensures Lookup(Dump(req, keys), k) == if k in keys then RequestEntry(req, k) else None
  {
    if keys != [] {
      var head := match RequestEntry(req, keys[0]) case Some(v) => [v] case None => [];
      DumpLookup(req, keys[1..], k);
      LookupAppend(head, Dump(req, keys[1..]), k);
      assert k in keys <==> k == keys[0] || k in keys[1..];
      if k == keys[0] {
        assert k !in keys[1..];
      }
    }
  }

  /** The value an attribute has after `update`: the request's when it was set, the old one otherwise. */
  function Overlay(req: SpeakerRequest, k: FieldKey, old_: FieldValue): FieldValue {
    match RequestEntry(req, k)
    case Some(v) => v
    case None => old_
  }

  /**
   * The `setattr` loop of `update`: every dumped item except the image is
   * written onto the record in turn.
   */
  method ApplyFields(rec: Speaker, data: seq<FieldValue>) returns (r: Speaker)
    ensures r.id == rec.id && r.image == rec.image
    ensures forall k :: k != KImage ==> Get(r, k) == (match Lookup(data, k) case Some(v) => v case None => Get(rec, k))
  {
    r := rec;
    for i := 0 to |data|
      invariant r.id == rec.id && r.image == rec.image
      invariant forall k :: k != KImage ==> Get(r, k) == (match Lookup(data[..i], k) case Some(v) => v case None => Get(rec, k))
    {
      assert data[..i + 1][..i] == data[..i];
      if KeyOf(data[i]) != KImage {
        r := SetField(r, data[i]);
      }
      assert Get(r, KImage) == ImageV(r.image);
    }
    assert data[..|data|] == data;
  }

  /** The whole dump over all attributes leaves each attribute other than the image as Overlay says. */
  lemma DumpOverlay(req: SpeakerRequest, k: FieldKey, old_: FieldValue)
    ensures (match Lookup(Dump(req, FieldOrder), k) case Some(v) => v case None => old_) == Overlay(req, k, old_)
  {
    FieldOrderDistinct();
    FieldOrderComplete(k);
    DumpLookup(req, FieldOrder, k);
  }

  /** Each attribute appears once in the dump order. */
  lemma FieldOrderDistinct()
    ensures forall i, j :: 0 <= i < j < |FieldOrder| ==> FieldOrder[i] != FieldOrder[j]
  {
  }

  lemma FieldOrderComplete(k: FieldKey)
    ensures k in FieldOrder
  {
    match k
    case KName => assert FieldOrder[0] == k;
    case KRole => assert FieldOrder[1] == k;
    case KDescription => assert FieldOrder[2] == k;
    case KImage => assert FieldOrder[3] == k;
    case KActivity => assert FieldOrder[4] == k;
    case KOrder => assert FieldOrder[5] == k;
    case KLinkedin => assert FieldOrder[6] == k;
    case KFacebook => assert FieldOrder[7] == k;
    case KInstagram => assert FieldOrder[8] == k;
    case KYoutube => assert FieldOrder[9] == k;
  }

  /** The image branch of `update`, applied to the record and to the media table. */
  method HandleNewImage(before: Speaker, newImage: Option<string>, reg: FreshMedia, media0: map<string, Alias>,
                        isUuid: string -> bool, isUrl: string -> bool)
    returns (rec: Speaker, media: map<string, Alias>)
    ensures rec == before.(image := ImageAfter(before.image, DecideImage(before.image, newImage, isUuid, isUrl), reg))
    ensures media == MediaAfterUpdate(media0, before, DecideImage(before.image, newImage, isUuid, isUrl), reg)
  {
    rec := before;
    media := media0;
    if TruthyText(newImage) {
      if before.image.Some? && isUuid(before.image.value) && isUrl(newImage.value) {
        media := media - {before.image.value};
        rec := rec.(image := newImage);
      } else if before.image.Some? && isUuid(before.image.value) && !isUrl(newImage.value) {
      } else if before.image.Some? && isUrl(before.image.value) && !isUrl(newImage.value) {
        media := media[reg.mediaUuid := Alias(before.name, reg.aliasUuid)];
        rec := rec.(image := Some(reg.mediaUuid));
      } else {
        rec := rec.(image := newImage);
      }
    }
  }

  /** After the `setattr` loop over the whole dump, each attribute but the image is as Overlay says. */
  lemma OverlayAll(req: SpeakerRequest, before: Speaker, rec: Speaker)
    requires forall k :: k != KImage ==>
      Get(rec, k) == (match Lookup(Dump(req, FieldOrder), k) case Some(v) => v case None => Get(before.(image := rec.image), k))
    ensures forall k :: k != KImage ==> Get(rec, k) == Overlay(req, k, Get(before, k))
  {
    forall k | k != KImage
      ensures Get(rec, k) == Overlay(req, k, Get(before, k))
    {
      assert Get(before.(image := rec.image), k) == Get(before, k);
      DumpOverlay(req, k, Get(before, k));
    }
  }

  // ---------------------------------------------------------------------------
  // Batch creation

  /**
   * The position of the first request, among the first n, whose truthy
   * activity id names no activity; None when there is none.
   */
  function FailureIn(items: seq<SpeakerRequest>, activities: set<int>, n: nat): (r: Option<nat>)
    requires n <= |items|
    ensures r.Some? ==> r.value < n && !ActivityOkIn(OrNone(items[r.value].activityId), activities)
  {
    if n == 0 then None
    else match FailureIn(items, activities, n - 1)
      case Some(k) => Some(k)
      case None => if ActivityOkIn(OrNone(items[n - 1].activityId), activities) then None else Some(n - 1)
  }

  /** There is no failure exactly when every activity exists, and a failure is the first missing one. */
  lemma {:induction false} FailureInSpec(items: seq<SpeakerRequest>, activities: set<int>, n: nat)
    requires n <= |items|
    ensures FailureIn(items, activities, n).None? <==>
      forall j :: 0 <= j < n ==> ActivityOkIn(OrNone(items[j].activityId), activities)
    ensures FailureIn(items, activities, n).Some? ==>
      forall j :: 0 <= j < FailureIn(items, activities, n).value ==> ActivityOkIn(OrNone(items[j].activityId), activities)
  {
    if n > 0 {
      FailureInSpec(items, activities, n - 1);
    }
  }

  /** Once a failure is found, looking at more requests does not move it. */
  lemma {:induction false} FailureInStays(items: seq<SpeakerRequest>, activities: set<int>, m: nat, n: nat)
    requires m <= n <= |items| && FailureIn(items, activities, m).Some?
    ensures FailureIn(items, activities, n) == FailureIn(items, activities, m)
    decreases n
  {
    if n > m {
      FailureInStays(items, activities, m, n - 1);
    }
  }

  /** Decimal text of an integer, as an f-string prints it. */
  function IntToString(v: int): (r: string)
    ensures |r| >= 1
    ensures v >= 0 ==> (forall i :: 0 <= i < |r| ==> IsDigit(r[i])) && DecimalValue(r) == v
    ensures v < 0 ==> r[0] == '-' && (forall i :: 1 <= i < |r| ==> IsDigit(r[i])) && DecimalValue(r[1..]) == -v
    ensures v >= 0 && |r| > 1 ==> r[0] != '0'
    ensures v < 0 ==> |r| > 1 && (|r| > 2 ==> r[1] != '0')
  {
    if v < 0 then
      var digits := NatToString(-v);
      assert ("-" + digits)[1..] == digits;
      "-" + digits
    else NatToString(v)
  }

  /** The decimal digits of n, most significant first, with no leading zero. */
  function NatToString(n: nat): (r: string)
    ensures |r| >= 1 && forall i :: 0 <= i < |r| ==> IsDigit(r[i])
    ensures DecimalValue(r) == n
    ensures |r| > 1 ==> r[0] != '0'
  {
    if n < 10 then
      var r := [('0' as int + n) as char];
      assert r[..0] == [];
      r
    else
      var init := NatToString(n / 10);
      var r := init + [('0' as int + n % 10) as char];
      assert r[..|r| - 1] == init;
      r
  }

  /** `f"Activity with id {activity_id} not found"`. */
  function ActivityMissing(activityId: int): HttpError {
    HttpError(404, "Activity with id " + IntToString(activityId) + " not found")
  }

  /** The media table after registering the images of the first n requests of a batch. */
  function MediaAfterBatch(media: map<string, Alias>, items: seq<SpeakerRequest>, reg: seq<FreshMedia>, n: nat, isUrl: string -> bool): map<string, Alias>
    requires n <= |items| && |reg| == |items|
  {
    if n == 0 then media
    else MediaAfterCreate(MediaAfterBatch(media, items, reg, n - 1, isUrl), items[n - 1], reg[n - 1], isUrl)
  }

  /** The records the first n requests of a batch become, in request order. */
  function BatchRecords(items: seq<SpeakerRequest>, reg: seq<FreshMedia>, firstId: int, n: nat, isUrl: string -> bool): (r: seq<Speaker>)
    requires n <= |items| && |reg| == |items|
    ensures |r| == n
  {
    if n == 0 then []
    else BatchRecords(items, reg, firstId, n - 1, isUrl) + [NewRecord(firstId + n - 1, items[n - 1], StoredImage(items[n - 1], reg[n - 1], isUrl), None)]
  }

  /** The records of a batch whose activities all exist carry consecutive ids from firstId and existing activities. */
  lemma BatchRecordsFit(items: seq<SpeakerRequest>, reg: seq<FreshMedia>, firstId: int, isUrl: string -> bool, activities: set<int>)
    requires |reg| == |items|
    requires forall i :: 0 <= i < |items| ==> ActivityOkIn(OrNone(items[i].activityId), activities)
    ensures var r := BatchRecords(items, reg, firstId, |items|, isUrl);
      forall i :: 0 <= i < |r| ==> r[i].id == firstId + i && ActivityOkIn(r[i].activityId, activities)
  {
    BatchRecordsAt(items, reg, firstId, |items|, isUrl);
  }

  /** Record i of a batch carries id firstId + i, the request's fields, its stored image and no order. */
  lemma {:induction false} BatchRecordsAt(items: seq<SpeakerRequest>, reg: seq<FreshMedia>, firstId: int, n: nat, isUrl: string -> bool)
    requires n <= |items| && |reg| == |items|
    ensures forall i :: 0 <= i < n ==>
      BatchRecords(items, reg, firstId, n, isUrl)[i] == NewRecord(firstId + i, items[i], StoredImage(items[i], reg[i], isUrl), None)
  {
    if n > 0 {
      BatchRecordsAt(items, reg, firstId, n - 1, isUrl);
    }
  }

  /**
   * The loop of `create_many` before the commit: registers each request's
   * media and builds its record, stopping at the first request whose
   * activity is missing.
   */
  method BuildBatch(items: seq<SpeakerRequest>, reg: seq<FreshMedia>, media0: map<string, Alias>,
                    activities: set<int>, firstId: int, isUrl: string -> bool)
    returns (pending: seq<Speaker>, media: map<string, Alias>, failedAt: Option<nat>)
    requires |reg| == |items|
    ensures failedAt == FailureIn(items, activities, |items|)
    ensures failedAt.Some? ==> failedAt.value < |items| && media == MediaAfterBatch(media0, items, reg, failedAt.value + 1, isUrl)
    ensures failedAt.None? ==>
      && media == MediaAfterBatch(media0, items, reg, |items|, isUrl)
      && pending == BatchRecords(items, reg, firstId, |items|, isUrl)
  {
    pending := [];
    media := media0;
    var i := 0;
    while i < |items|
      invariant 0 <= i <= |items|
      invariant FailureIn(items, activities, i) == None
      invariant pending == BatchRecords(items, reg, firstId, i, isUrl)
      invariant media == MediaAfterBatch(media0, items, reg, i, isUrl)
    {
      var image;
      image, media := HandleImage(items[i], reg[i], media, isUrl);
      if TruthyId(OrNone(items[i].activityId)) && OrNone(items[i].activityId).value !in activities {
        assert FailureIn(items, activities, i + 1) == Some(i);
        FailureInStays(items, activities, i + 1, |items|);
        return pending, media, Some(i);
      }
      pending := pending + [NewRecord(firstId + i, items[i], image, None)];
      assert pending == BatchRecords(items, reg, firstId, i + 1, isUrl);
      i := i + 1;
    }
    failedAt := None;
  }

  /** The single commit of `create_many`: the pending records are stored under consecutive new ids. */
  method CommitBatch(store: map<int, Speaker>, pending: seq<Speaker>, firstId: int) returns (r: map<int, Speaker>)
    requires forall id :: id in store ==> id < firstId
    ensures forall id :: id in r <==> id in store || firstId <= id < firstId + |pending|
    ensures forall id :: id in store ==> r[id] == store[id]
    ensures forall i :: 0 <= i < |pending| ==> r[firstId + i] == pending[i]
  {
    r := store;
    for j := 0 to |pending|
      invariant forall id :: id in r <==> id in store || firstId <= id < firstId + j
      invariant forall id :: id in store ==> r[id] == store[id]
      invariant forall m :: 0 <= m < j ==> r[firstId + m] == pending[m]
    {
      r := r[firstId + j := pending[j]];
    }
  }

  /** Every record sits under its own id below the next id, and every truthy activity id names an activity. */
  ghost predicate StoreValid(store: map<int, Speaker>, nextId: int, activities: set<int>) {
    && (forall id :: id in store ==> store[id].id == id && id < nextId)
    && (forall id :: id in store ==> ActivityOkIn(store[id].activityId, activities))
  }

  /** Committing a batch whose records carry consecutive new ids and existing activities keeps the store valid. */
  lemma CommitKeepsValid(store: map<int, Speaker>, after: map<int, Speaker>, pending: seq<Speaker>, firstId: int, activities: set<int>)
    requires StoreValid(store, firstId, activities)
    requires forall i :: 0 <= i < |pending| ==> pending[i].id == firstId + i && ActivityOkIn(pending[i].activityId, activities)
    requires forall id :: id in after <==> id in store || firstId <= id < firstId + |pending|
    requires forall id :: id in store ==> after[id] == store[id]
    requires forall i :: 0 <= i < |pending| ==> after[firstId + i] == pending[i]
    ensures StoreValid(after, firstId + |pending|, activities)
  {
    forall id | id in after
      ensures after[id].id == id && id < firstId + |pending|
      ensures ActivityOkIn(after[id].activityId, activities)
    {
      if id !in store {
        var i := id - firstId;
        assert after[firstId + i] == pending[i];
      }
    }
  }

  /** Storing an updated record whose activity passed the check keeps the store valid. */
  lemma UpdateKeepsValid(store: map<int, Speaker>, nextId: int, activities: set<int>, req: SpeakerRequest, before: Speaker, rec: Speaker)
    requires StoreValid(store, nextId, activities)
    requires before.id in store && store[before.id] == before
    requires ActivityOkIn(OrNone(req.activityId), activities)
    requires rec.id == before.id
    requires Get(rec, KActivity) == Overlay(req, KActivity, Get(before, KActivity))
    ensures StoreValid(store[before.id := rec], nextId, activities)
  {
  }

  // ---------------------------------------------------------------------------
  // The service

  class SpeakerService {
    var speakers: map<int, Speaker>
    var activities: set<int>
    var media: map<string, Alias>
    var nextId: int
    /** `is_valid_uuid`, not part of this model beyond being some predicate. */
    const isUuid: string -> bool
    /** `is_valid_url`, not part of this model beyond being some predicate. */
    const isUrl: string -> bool

    /** Every record sits under its own id below the next id, and every truthy activity id names an activity. */
    ghost predicate Valid()
      reads this
    {
      StoreValid(speakers, nextId, activities)
    }

    constructor (acts: set<int>, uuidTest: string -> bool, urlTest: string -> bool)
      ensures Valid()
      ensures speakers == map[] && activities == acts && media == map[] && nextId == 1
      ensures isUuid == uuidTest && isUrl == urlTest
    {
      speakers := map[];
      activities := acts;
      media := map[];
      nextId := 1;
      isUuid := uuidTest;
      isUrl := urlTest;
    }

    /** `get_by_id`: the record with that id, or 404 "Speaker not found". */
    method GetById(id: int) returns (r: Result<Speaker, HttpError>)
      ensures r.Ok? <==> id in speakers
      ensures r.Ok? ==> r.value == speakers[id]
      ensures r.Err? ==> r.error == SpeakerNotFound
    {
      if id in speakers {
        r := Ok(speakers[id]);
      } else {
        r := Err(SpeakerNotFound);
      }
    }

    /**
     * `get_all`: each record of the activity (every record when None)
     * exactly once, by order with NULL first, then by name.
     */
    method GetAll(activityId: Option<int>) returns (r: seq<Speaker>)
      ensures forall s :: multiset(r)[s] == if s in speakers.Values && InActivity(s, activityId) then 1 else 0
      ensures InListingOrder(r)
    {
      r := [];
      var remaining := speakers.Values;
      while remaining != {}
        invariant remaining <= speakers.Values
        invariant forall s :: multiset(r)[s] == if s in speakers.Values - remaining && InActivity(s, activityId) then 1 else 0
        invariant InListingOrder(r)
        decreases |remaining|
      {
        var s :| s in remaining;
        if InActivity(s, activityId) {
          InsertListedSorted(s, r);
          r := InsertListed(s, r);
        }
        remaining := remaining - {s};
      }
    }

    /**
     * `create`: registers fresh media unless the image is a valid URL, then
     * fails with 404 "Activity not found" for a truthy activity id with no
     * activity, else stores a new record with order defaulting to 0.
     */
    method Create(req: SpeakerRequest, reg: FreshMedia) returns (r: Result<Speaker, HttpError>)
      requires Valid()
      modifies this
      ensures Valid()
      ensures activities == old(activities)
      ensures media == MediaAfterCreate(old(media), req, reg, isUrl)
      ensures !ActivityOkIn(OrNone(req.activityId), activities) ==>
        r == Err(ActivityNotFound) && speakers == old(speakers) && nextId == old(nextId)
      ensures ActivityOkIn(OrNone(req.activityId), activities) ==>
        r.Ok? && speakers == old(speakers)[old(nextId) := r.value] && nextId == old(nextId) + 1
      ensures r.Ok? ==>
        && r.value.id == old(nextId) && old(nextId) !in old(speakers)
        && CopiesRequest(r.value, req)
        && r.value.image == StoredImage(req, reg, isUrl)
        && r.value.order == Some(if OrNone(req.order).Some? then OrNone(req.order).value else 0)
    {
      var image;
      image, media := HandleImage(req, reg, media, isUrl);
      if TruthyId(OrNone(req.activityId)) && OrNone(req.activityId).value !in activities {
        return Err(ActivityNotFound);
      }
      var order := if OrNone(req.order).Some? then OrNone(req.order).value else 0;
      var s := NewRecord(nextId, req, image, Some(order));
      speakers := speakers[nextId := s];
      nextId := nextId + 1;
      r := Ok(s);
    }

    /**
     * `create_many`: handles each request's image as `create` does; the first
     * request with a missing activity fails the whole batch with a 404 naming
     * its id, and no record is stored. Otherwise all records are stored
     * together, in request order, without an order value.
     */
    method CreateMany(items: seq<SpeakerRequest>, reg: seq<FreshMedia>) returns (r: Result<seq<Speaker>, HttpError>)
      requires Valid()
      requires |reg| == |items|
      modifies this`speakers, this`nextId, this`media
      ensures Valid()
      ensures r.Ok? <==> FailureIn(items, activities, |items|).None?
      ensures r.Err? ==>
        var k := FailureIn(items, activities, |items|).value;
        && r.error == ActivityMissing(OrNone(items[k].activityId).value)
        && speakers == old(speakers) && nextId == old(nextId)
        && media == MediaAfterBatch(old(media), items, reg, k + 1, isUrl)
      ensures r.Ok? ==>
        && r.value == BatchRecords(items, reg, old(nextId), |items|, isUrl)
        && nextId == old(nextId) + |items|
        && media == MediaAfterBatch(old(media), items, reg, |items|, isUrl)
        && (forall id :: id in speakers <==> id in old(speakers) || old(nextId) <= id < nextId)
        && (forall id :: id in old(speakers) ==> speakers[id] == old(speakers)[id])
        && (forall i :: 0 <= i < |items| ==> speakers[old(nextId) + i] == r.value[i])
    {
      var pending, newMedia, failedAt := BuildBatch(items, reg, media, activities, nextId, isUrl);
      media := newMedia;
      if failedAt.Some? {
        return Err(ActivityMissing(OrNone(items[failedAt.value].activityId).value));
      }
      FailureInSpec(items, activities, |items|);
      BatchRecordsFit(items, reg, nextId, isUrl, activities);
      Commit(pending);
      r := Ok(pending);
    }

    /** The single commit of `create_many`: the pending records are stored under the next ids, in order. */
    method Commit(pending: seq<Speaker>)
      requires Valid()
      requires forall i :: 0 <= i < |pending| ==> pending[i].id == nextId + i && ActivityOkIn(pending[i].activityId, activities)
      modifies this`speakers, this`nextId
      ensures Valid()
      ensures nextId == old(nextId) + |pending|
      ensures forall id :: id in speakers <==> id in old(speakers) || old(nextId) <= id < nextId
      ensures forall id :: id in old(speakers) ==> speakers[id] == old(speakers)[id]
      ensures forall i :: 0 <= i < |pending| ==> speakers[old(nextId) + i] == pending[i]
    {
      var store := CommitBatch(speakers, pending, nextId);
      CommitKeepsValid(speakers, store, pending, nextId, activities);
      speakers := store;
      nextId := nextId + |pending|;
    }

    /**
     * `update`: 404 for a missing record, 404 "Activity not found" for a
     * truthy activity id with no activity (both changing nothing); otherwise
     * the image follows the decision table and every other attribute the
     * request set is overwritten, the rest left as they were.
     */
    method Update(id: int, req: SpeakerRequest, reg: FreshMedia) returns (r: Result<Speaker, HttpError>)
      requires Valid()
      modifies this
      ensures Valid()
      ensures activities == old(activities) && nextId == old(nextId)
      ensures id !in old(speakers) ==> r == Err(SpeakerNotFound) && speakers == old(speakers) && media == old(media)
      ensures id in old(speakers) && !ActivityOkIn(OrNone(req.activityId), activities) ==>
        r == Err(ActivityNotFound) && speakers == old(speakers) && media == old(media)
      ensures id in old(speakers) && ActivityOkIn(OrNone(req.activityId), activities) ==>
        r.Ok? && speakers == old(speakers)[id := r.value]
      ensures r.Ok? ==>
        var before := old(speakers)[id];
        var action := DecideImage(before.image, OrNone(req.image), isUuid, isUrl);
        && r.value.id == id
        && r.value.image == ImageAfter(before.image, action, reg)
        && media == MediaAfterUpdate(old(media), before, action, reg)
        && (forall k :: k != KImage ==> Get(r.value, k) == Overlay(req, k, Get(before, k)))
    {
      var found := GetById(id);
      if found.Err? {
        return found;
      }
      var before := found.value;
      if TruthyId(OrNone(req.activityId)) && OrNone(req.activityId).value !in activities {
        return Err(ActivityNotFound);
      }
      var rec, newMedia := HandleNewImage(before, OrNone(req.image), reg, media, isUuid, isUrl);
      media := newMedia;
      rec := ApplyFields(rec, Dump(req, FieldOrder));
      OverlayAll(req, before, rec);
      ghost var store := speakers;
      UpdateKeepsValid(store, nextId, activities, req, before, rec);
      speakers := speakers[id := rec];
      r := Ok(rec);
    }

    /**
     * `delete`: 404 for a missing record; otherwise unregisters the image when
     * it is a uuid, removes the record and returns a copy of it (the copy
     * carries no order).
     */
    method Delete(id: int) returns (r: Result<Speaker, HttpError>)
      requires Valid()
      modifies this
      ensures Valid()
      ensures activities == old(activities) && nextId == old(nextId)
      ensures id !in old(speakers) ==> r == Err(SpeakerNotFound) && speakers == old(speakers) && media == old(media)
      ensures id in old(speakers) ==>
        var before := old(speakers)[id];
        && r == Ok(before.(order := None))
        && speakers == old(speakers) - {id}
        && media == (if before.image.Some? && isUuid(before.image.value) then old(media) - {before.image.value} else old(media))
    {
      var found := GetById(id);
      if found.Err? {
        return found;
      }
      var s := found.value;
      if s.image.Some? && isUuid(s.image.value) {
        media := media - {s.image.value};
      }
      var copy := Speaker(s.id, s.name, s.role, s.description, s.image, s.activityId, None,
        s.linkedin, s.facebook, s.instagram, s.youtube);
      speakers := speakers - {id};
      r := Ok(copy);
    }

    /**
     * `remove_image`: 404 for a missing record, 404 "Speaker has no image"
     * when the image is falsy; otherwise unregisters it when it is a uuid and
     * clears it, leaving the other attributes as they were.
     */
    method RemoveImage(id: int) returns (r: Result<Speaker, HttpError>)
      requires Valid()
      modifies this
      ensures Valid()
      ensures activities == old(activities) && nextId == old(nextId)
      ensures id !in old(speakers) ==> r == Err(SpeakerNotFound) && speakers == old(speakers) && media == old(media)
      ensures id in old(speakers) && !TruthyText(old(speakers)[id].image) ==>
        r == Err(NoImage) && speakers == old(speakers) && media == old(media)
      ensures id in old(speakers) && TruthyText(old(speakers)[id].image) ==>
        var before := old(speakers)[id];
        && r == Ok(before.(image := None))
        && speakers == old(speakers)[id := r.value]
        && media == (if isUuid(before.image.value) then old(media) - {before.image.value} else old(media))
    {
      var found := GetById(id);
      if found.Err? {
        return found;
      }
      var s := found.value;
      if !TruthyText(s.image) {
        return Err(NoImage);
      }
      if isUuid(s.image.value) {
        media := media - {s.image.value};
      }
      var cleared := s.(image := None);
      speakers := speakers[id := cleared];
      r := Ok(cleared);
    }
  }
}
