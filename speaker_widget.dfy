/**
 * The public speaker widget: the list it loads, the three filters it
 * applies one after the other, the activities shown for a speaker in the
 * detail view, and the social links shown there.
 */
module SpeakerWidget {
  import opened Wrappers
  import opened Text
  import opened Seqs
  import opened JsValues

  /** A speaker record as the widget receives it; `activities` may be absent. */
  datatype WidgetSpeaker = WidgetSpeaker(
    id: JsVal, name: string, activityId: JsVal, activities: Option<seq<JsVal>>,
    linkedin: JsVal, facebook: JsVal, instagram: JsVal, youtube: JsVal)

  // ---------------------------------------------------------------------------
  // Loading

  /** The body of the list response: an array, or any other value. */
  datatype WidgetData = ArrayOf(items: seq<WidgetSpeaker>) | NonArray

  /** `Array.isArray(data) ? data : []`. */
  function FetchedList(d: WidgetData): (r: seq<WidgetSpeaker>)
    ensures d.ArrayOf? ==> r == d.items
    ensures d.NonArray? ==> r == []
  {
    if d.ArrayOf? then d.items else []
  }

  const LoginRequired := "Please log in to view speakers"
  const FetchFailedDefault := "Failed to fetch speakers"

  /** The message shown when the request fails: a 401 asks to log in, otherwise the error's own message or a default. */
  function FetchErrorMessage(status: Option<int>, message: string): (m: string)
    ensures m != ""
    ensures status == Some(401) ==> m == LoginRequired
    ensures status != Some(401) ==> m == (if message != "" then message else FetchFailedDefault)
  {
    if status == Some(401) then LoginRequired
    else if message != "" then message
    else FetchFailedDefault
  }

  // ---------------------------------------------------------------------------
  // The filter chain

  /** The record's id equals the `speakerId` prop after `parseInt`. */
  predicate ById(s: WidgetSpeaker, id: JsVal) {
    StrictEq(s.id, id)
  }

  /** The record has an `activities` list with an entry whose id equals the parsed `activity_id` prop. */
  predicate InActivity(s: WidgetSpeaker, activityId: JsVal) {
    s.activities.Some? && exists a :: a in s.activities.value && StrictEq(a, activityId)
  }

  /** Case-insensitive substring test of the (untrimmed) filter text on the name. */
  predicate NameMatches(s: WidgetSpeaker, text: string) {
    Contains(Lower(s.name), Lower(text))
  }

  /** The `speakerId` stage's test; it holds everywhere when the prop is null. */
  function IdKeeper(speakerId: Option<JsVal>): WidgetSpeaker -> bool {
    s => speakerId.None? || ById(s, speakerId.value)
  }

  /** The `activity_id` stage's test; it holds everywhere when the prop is null. */
  function ActivityKeeper(activityId: Option<JsVal>): WidgetSpeaker -> bool {
    s => activityId.None? || InActivity(s, activityId.value)
  }

  /** The name stage's test; it holds everywhere when the trimmed text is blank. */
  function TextKeeper(filterText: string): WidgetSpeaker -> bool {
    s => Trim(filterText) == "" || NameMatches(s, filterText)
  }

  /**
   * `filteredSpeakers`: the props that are null (None) and a blank filter
   * text apply no filter; the others are applied in turn.
   */
  function WidgetFilter(all: seq<WidgetSpeaker>, speakerId: Option<JsVal>, activityId: Option<JsVal>, filterText: string): seq<WidgetSpeaker> {
    var byId := if speakerId.Some? then Filter(all, IdKeeper(speakerId)) else all;
    var byActivity := if activityId.Some? then Filter(byId, ActivityKeeper(activityId)) else byId;
    if Trim(filterText) != "" then Filter(byActivity, TextKeeper(filterText)) else byActivity
  }

  /** A record survives the chain iff it passes every filter that applies. */
  predicate WidgetKeeps(s: WidgetSpeaker, speakerId: Option<JsVal>, activityId: Option<JsVal>, filterText: string) {
    && (speakerId.None? || ById(s, speakerId.value))
    && (activityId.None? || InActivity(s, activityId.value))
    && (Trim(filterText) == "" || NameMatches(s, filterText))
  }

  function Keeper(speakerId: Option<JsVal>, activityId: Option<JsVal>, filterText: string): WidgetSpeaker -> bool {
    s => WidgetKeeps(s, speakerId, activityId, filterText)
  }

  function IdActivityKeeper(speakerId: Option<JsVal>, activityId: Option<JsVal>): WidgetSpeaker -> bool {
    s => IdKeeper(speakerId)(s) && ActivityKeeper(activityId)(s)
  }

  /** The three stages together are one filter by the conjunction of the conditions that apply. */
  lemma StagedFilterIsOneFilter(all: seq<WidgetSpeaker>, speakerId: Option<JsVal>, activityId: Option<JsVal>, filterText: string)
    ensures WidgetFilter(all, speakerId, activityId, filterText) == Filter(all, Keeper(speakerId, activityId, filterText))
  {
    var byId := Filter(all, IdKeeper(speakerId));
    if speakerId.None? {
      FilterAll(all, IdKeeper(speakerId));
    }
    var byActivity := Filter(byId, ActivityKeeper(activityId));
    if activityId.None? {
      FilterAll(byId, ActivityKeeper(activityId));
    }
    if Trim(filterText) == "" {
      FilterAll(byActivity, TextKeeper(filterText));
    }
    FilterCompose(all, IdKeeper(speakerId), ActivityKeeper(activityId), IdActivityKeeper(speakerId, activityId));
    FilterCompose(all, IdActivityKeeper(speakerId, activityId), TextKeeper(filterText), Keeper(speakerId, activityId, filterText));
  }

  /**
   * The list shown is an order-preserving subsequence of the loaded list,
   * holding exactly the records that pass every applicable filter.
   */
  lemma WidgetFilterSpec(all: seq<WidgetSpeaker>, speakerId: Option<JsVal>, activityId: Option<JsVal>, filterText: string)
    ensures var r := WidgetFilter(all, speakerId, activityId, filterText);
      && IsSubseq(r, all)
      && (forall x :: x in r <==> x in all && WidgetKeeps(x, speakerId, activityId, filterText))
  {
    StagedFilterIsOneFilter(all, speakerId, activityId, filterText);
  }

  /** A record without an `activities` list never survives an activity filter. */
  lemma NoActivitiesDropped(all: seq<WidgetSpeaker>, speakerId: Option<JsVal>, activityId: JsVal, filterText: string, x: WidgetSpeaker)
    requires x.activities.None?
    ensures x !in WidgetFilter(all, speakerId, Some(activityId), filterText)
  {
    WidgetFilterSpec(all, speakerId, Some(activityId), filterText);
  }

  // ---------------------------------------------------------------------------
  // The detail view

  /** An entry of the activity list. */
  datatype ActivityRecord = ActivityRecord(id: JsVal, title: string)

  function ActivityIdsOf(entries: seq<WidgetSpeaker>): (r: seq<JsVal>)
    ensures |r| == |entries|
    ensures forall i :: 0 <= i < |r| ==> r[i] == entries[i].activityId
  {
    seq(|entries|, i requires 0 <= i < |entries| => entries[i].activityId)
  }

  lemma ActivityIdsOfMembership(entries: seq<WidgetSpeaker>)
    ensures forall v :: v in ActivityIdsOf(entries) <==> exists s :: s in entries && s.activityId == v
  {
    forall v | v in ActivityIdsOf(entries) ensures exists s :: s in entries && s.activityId == v {
      var i :| 0 <= i < |entries| && ActivityIdsOf(entries)[i] == v;
      assert entries[i] in entries;
    }
    forall v | exists s :: s in entries && s.activityId == v ensures v in ActivityIdsOf(entries) {
      var s :| s in entries && s.activityId == v;
      var i :| 0 <= i < |entries| && entries[i] == s;
      assert ActivityIdsOf(entries)[i] == v;
    }
  }

  /**
   * The truthy activity ids of every record with the given name (the same
   * person may appear once per activity).
   */
  function SpeakerActivityIds(all: seq<WidgetSpeaker>, name: string): (ids: seq<JsVal>)
    ensures forall v :: v in ids <==> !Falsy(v) && exists s :: s in all && s.name == name && s.activityId == v
  {
    var entries := Filter(all, (s: WidgetSpeaker) => s.name == name);
    var ids := Filter(ActivityIdsOf(entries), (v: JsVal) => !Falsy(v));
    ActivityIdsOfMembership(entries);
    ids
  }

  /**
   * `fetchSpeakerActivities`: the activities whose id is one of the
   * speaker's activity ids, in the activity list's order.
   */
  function SpeakerActivities(all: seq<WidgetSpeaker>, acts: seq<ActivityRecord>, name: string): (r: seq<ActivityRecord>)
    ensures IsSubseq(r, acts)
    ensures forall a :: a in r <==>
      a in acts && !Falsy(a.id) && exists s :: s in all && s.name == name && s.activityId == a.id
    ensures forall a :: multiset(r)[a] ==
                        if !Falsy(a.id) && exists s :: s in all && s.name == name && s.activityId == a.id
                        then multiset(acts)[a] else 0
  {
    var ids := SpeakerActivityIds(all, name);
    Filter(acts, (a: ActivityRecord) => a.id in ids)
  }

  // ---------------------------------------------------------------------------
  // Social links

  datatype SocialLink = SocialLink(site: string, url: JsVal)

  /** The four candidate links, in display order. */
  function AllLinks(s: WidgetSpeaker): seq<SocialLink> {
    [SocialLink("LinkedIn", s.linkedin), SocialLink("Facebook", s.facebook),
     SocialLink("Instagram", s.instagram), SocialLink("YouTube", s.youtube)]
  }

  /** `socialLinks`: the links with a truthy URL, in the order LinkedIn, Facebook, Instagram, YouTube. */
  function SocialLinks(s: WidgetSpeaker): (r: seq<SocialLink>)
    ensures IsSubseq(r, AllLinks(s))
    ensures forall l :: l in r <==> l in AllLinks(s) && !Falsy(l.url)
    ensures |r| <= 4
  {
    Filter(AllLinks(s), (l: SocialLink) => !Falsy(l.url))
  }
}
