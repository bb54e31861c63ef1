/**
 * The speaker list of the admin screen: normalisation of the list endpoint's
 * response, the search/activity filter, the column sort, pagination with
 * eight rows per page, the five-button page window, and the helpers that
 * shorten descriptions and compute avatar initials.
 */
module AdminList {
  import opened Wrappers
  import opened Text
  import opened Seqs
  import opened JsValues

  // ---------------------------------------------------------------------------
  // Response normalisation

  /** A speaker as the list endpoint returns it; text fields may be null or missing (None). */
  datatype RawSpeaker = RawSpeaker(
    id: JsVal, name: Option<string>, role: Option<string>, description: Option<string>,
    image: JsVal, activityId: JsVal,
    linkedin: Option<string>, facebook: Option<string>, instagram: Option<string>, youtube: Option<string>)

  /** A speaker as the admin list holds it after normalisation. */
  datatype Speaker = Speaker(
    id: JsVal, name: string, role: string, description: string,
    imageUuid: JsVal, activityId: JsVal,
    linkedin: string, facebook: string, instagram: string, youtube: string)

  /** A text field JavaScript treats as false: null, missing or empty. */
  predicate FalsyText(t: Option<string>) {
    t == None || t == Some("")
  }

  /** `t || d` on a text field. */
  function TextOr(t: Option<string>, d: string): (r: string)
    ensures FalsyText(t) ==> r == d
    ensures !FalsyText(t) ==> r == t.value
  {
    if FalsyText(t) then d else t.value
  }

  const UnnamedSpeaker := "Unnamed Speaker"

  /**
   * The per-record normalisation of `fetchSpeakers`: a falsy name becomes
   * 'Unnamed Speaker', falsy role, description and social fields become '',
   * a truthy activity id is coerced with `Number`, a falsy one becomes null,
   * and `image` is kept as `image_uuid`.
   */
  function NormaliseSpeaker(r: RawSpeaker): (s: Speaker)
    ensures s.id == r.id && s.imageUuid == r.image
    ensures s.name != ""
    ensures FalsyText(r.name) ==> s.name == UnnamedSpeaker
    ensures !FalsyText(r.name) ==> s.name == r.name.value
    ensures FalsyText(r.role) <==> s.role == ""
    ensures FalsyText(r.description) <==> s.description == ""
    ensures !FalsyText(r.role) ==> s.role == r.role.value
    ensures !FalsyText(r.description) ==> s.description == r.description.value
    ensures FalsyText(r.linkedin) <==> s.linkedin == ""
    ensures FalsyText(r.facebook) <==> s.facebook == ""
    ensures FalsyText(r.instagram) <==> s.instagram == ""
    ensures FalsyText(r.youtube) <==> s.youtube == ""
    ensures !FalsyText(r.linkedin) ==> s.linkedin == r.linkedin.value
    ensures !FalsyText(r.facebook) ==> s.facebook == r.facebook.value
    ensures !FalsyText(r.instagram) ==> s.instagram == r.instagram.value
    ensures !FalsyText(r.youtube) ==> s.youtube == r.youtube.value
    ensures s.activityId == Null || IsNumber(s.activityId)
    ensures Falsy(r.activityId) ==> s.activityId == Null
    ensures !Falsy(r.activityId) ==> s.activityId == ToNumber(r.activityId)
  {
    Speaker(
      r.id, TextOr(r.name, UnnamedSpeaker), TextOr(r.role, ""), TextOr(r.description, ""),
      r.image, if Falsy(r.activityId) then Null else ToNumber(r.activityId),
      TextOr(r.linkedin, ""), TextOr(r.facebook, ""), TextOr(r.instagram, ""), TextOr(r.youtube, ""))
  }

  /** A `results` or `items` property: missing or falsy, or an array. */
  datatype ListField = NoList | ListOf(items: seq<RawSpeaker>)

  /** The `data` of the list response: an array, another object, or anything else. */
  datatype ResponseData = ArrayData(items: seq<RawSpeaker>) | ObjectData(results: ListField, itemsField: ListField) | OtherData

  /**
   * The records `fetchSpeakers` reads from a response: the array itself,
   * else `results`, else `items`, else none. An empty array is truthy, so
   * `results: []` wins over `items`.
   */
  function ResponseItems(d: ResponseData): (r: seq<RawSpeaker>)
    ensures d.ArrayData? ==> r == d.items
    ensures d.ObjectData? && d.results.ListOf? ==> r == d.results.items
    ensures d.ObjectData? && d.results.NoList? && d.itemsField.ListOf? ==> r == d.itemsField.items
    ensures d.ObjectData? && d.results.NoList? && d.itemsField.NoList? ==> r == []
    ensures d.OtherData? ==> r == []
  {
    match d
    case ArrayData(items) => items
    case ObjectData(results, itemsField) =>
      if results.ListOf? then results.items
      else if itemsField.ListOf? then itemsField.items
      else []
    case OtherData => []
  }

  /** The list `fetchSpeakers` stores: one normalised record per record of the response, in order. */
  function NormaliseResponse(d: ResponseData): (r: seq<Speaker>)
    ensures |r| == |ResponseItems(d)|
    ensures forall i :: 0 <= i < |r| ==> r[i] == NormaliseSpeaker(ResponseItems(d)[i])
    ensures forall i :: 0 <= i < |r| ==> r[i].name != ""
  {
    var items := ResponseItems(d);
    seq(|items|, i requires 0 <= i < |items| => NormaliseSpeaker(items[i]))
  }

  // ---------------------------------------------------------------------------
  // Filter

  /** The search box: empty, or a case-insensitive substring of the name or of the description. */
  predicate MatchesSearch(s: Speaker, query: string) {
    query == ""
    || Contains(Lower(s.name), Lower(query))
    || Contains(Lower(s.description), Lower(query))
  }

  /** The activity selector: unset (null), or equal to the activity id directly or after `Number(...)`. */
  predicate MatchesActivity(s: Speaker, filterActivity: JsVal) {
    filterActivity == Null
    || StrictEq(s.activityId, filterActivity)
    || (!Falsy(s.activityId) && StrictEq(ToNumber(s.activityId), filterActivity))
  }

  predicate Keeps(s: Speaker, query: string, filterActivity: JsVal) {
    MatchesSearch(s, query) && MatchesActivity(s, filterActivity)
  }

  /** `filteredSpeakers`: the records passing both tests, in list order. */
  function FilterSpeakers(list: seq<Speaker>, query: string, filterActivity: JsVal): (r: seq<Speaker>)
    ensures forall x :: x in r <==> x in list && Keeps(x, query, filterActivity)
    ensures forall x :: multiset(r)[x] == if Keeps(x, query, filterActivity) then multiset(list)[x] else 0
    ensures IsSubseq(r, list)
  {
    Filter(list, x => Keeps(x, query, filterActivity))
  }

  /** With no query and no activity selected the whole list is shown. */
  lemma NoFilterKeepsAll(list: seq<Speaker>)
    ensures FilterSpeakers(list, "", Null) == list
  {
    FilterAll(list, x => Keeps(x, "", Null));
  }

  // ---------------------------------------------------------------------------
  // Sort

  /** The columns `handleSort` is called with; BySocial names a property no record has. */
  datatype SortField = ByName | ByRole | ByDescription | ByActivity | BySocial

  datatype Direction = Asc | Desc

  /** An entry of the host's activity list. */
  datatype Activity = Activity(id: int, name: string)

  /** `activities.find(act => act.id === activityId)?.name || ''`. */
  function ActivityName(acts: seq<Activity>, activityId: JsVal): (r: string)
    ensures (forall i :: 0 <= i < |acts| ==> !StrictEq(Num(acts[i].id), activityId)) ==> r == ""
    ensures (exists i :: 0 <= i < |acts| && StrictEq(Num(acts[i].id), activityId)) ==>
      exists i :: 0 <= i < |acts| && StrictEq(Num(acts[i].id), activityId) && r == acts[i].name
        && forall j :: 0 <= j < i ==> !StrictEq(Num(acts[j].id), activityId)
  {
    if acts == [] then ""
    else if StrictEq(Num(acts[0].id), activityId) then acts[0].name
    else ActivityName(acts[1..], activityId)
  }

  /** The value the comparator reads for a record; None stands for `undefined`. */
  function SortKey(s: Speaker, f: SortField, acts: seq<Activity>): (k: Option<string>)
    ensures k.None? <==> f == BySocial
    ensures f == ByName ==> k == Some(s.name)
    ensures f == ByRole ==> k == Some(s.role)
    ensures f == ByDescription ==> k == Some(s.description)
    ensures f == ByActivity ==> k == Some(ActivityName(acts, s.activityId))
  {
    match f
    case ByName => Some(s.name)
    case ByRole => Some(s.role)
    case ByDescription => Some(s.description)
    case ByActivity => Some(ActivityName(acts, s.activityId))
    case BySocial => None
  }

  /** `a < b` on two comparator values: false whenever either is undefined. */
  predicate KeyLess(a: Option<string>, b: Option<string>) {
    a.Some? && b.Some? && StrLess(a.value, b.value)
  }

  /** The comparator handed to `sort`: -1, 1 or 0, flipped for a descending sort. */
  function Compare(a: Speaker, b: Speaker, f: SortField, dir: Direction, acts: seq<Activity>): (c: int)
    ensures -1 <= c <= 1
    ensures f == BySocial ==> c == 0
    ensures var ka, kb := SortKey(a, f, acts), SortKey(b, f, acts);
      (c == -1 <==> (dir == Asc && KeyLess(ka, kb)) || (dir == Desc && KeyLess(kb, ka)))
      && (c == 1 <==> (dir == Asc && KeyLess(kb, ka)) || (dir == Desc && KeyLess(ka, kb)))
  {
    var ka, kb := SortKey(a, f, acts), SortKey(b, f, acts);
    if KeyLess(ka, kb) then
      StrLessAsymmetric(ka.value, kb.value);
      (if dir == Asc then -1 else 1)
    else if KeyLess(kb, ka) then (if dir == Asc then 1 else -1)
    else 0
  }

  /** No later element is strictly before an earlier one. */
  ghost predicate SortedBy(s: seq<Speaker>, f: SortField, dir: Direction, acts: seq<Activity>) {
    forall i, j :: 0 <= i < j < |s| ==> Compare(s[i], s[j], f, dir, acts) <= 0
  }

  lemma CompareAntisymmetric(a: Speaker, b: Speaker, f: SortField, dir: Direction, acts: seq<Activity>)
    ensures Compare(a, b, f, dir, acts) == -Compare(b, a, f, dir, acts)
  {
    var ka, kb := SortKey(a, f, acts), SortKey(b, f, acts);
    if KeyLess(ka, kb) {
      StrLessAsymmetric(ka.value, kb.value);
    }
  }

  lemma CompareTransitive(a: Speaker, b: Speaker, c: Speaker, f: SortField, dir: Direction, acts: seq<Activity>)
    requires Compare(a, b, f, dir, acts) <= 0 && Compare(b, c, f, dir, acts) <= 0
    ensures Compare(a, c, f, dir, acts) <= 0
  {
    if f != BySocial {
      var ka, kb, kc := SortKey(a, f, acts).value, SortKey(b, f, acts).value, SortKey(c, f, acts).value;
      if StrLess(ka, kb) { StrLessAsymmetric(ka, kb); }
      if StrLess(kb, kc) { StrLessAsymmetric(kb, kc); }
      if dir == Asc {
        // a <= b and b <= c, where x <= y means !(y < x)
        assert !StrLess(kb, ka) && !StrLess(kc, kb);
        if StrLess(kc, ka) {
          if ka == kb {
          } else {
            StrLessTotal(ka, kb);
            StrLessTransitive(kc, ka, kb);
          }
        }
      } else {
        assert !StrLess(ka, kb) && !StrLess(kb, kc);
        if StrLess(ka, kc) {
          if ka == kb {
          } else {
            StrLessTotal(ka, kb);
            StrLessTransitive(kb, ka, kc);
          }
        }
      }
    }
  }

  /** Places x before the first element it does not sort after, so equal elements keep their order. */
  function Insert(x: Speaker, s: seq<Speaker>, f: SortField, dir: Direction, acts: seq<Activity>): (r: seq<Speaker>)
    ensures multiset(r) == multiset(s) + multiset{x}
    ensures |r| == |s| + 1
  {
    if s == [] then [x]
    else if Compare(x, s[0], f, dir, acts) > 0 then
      assert s == [s[0]] + s[1..];
      [s[0]] + Insert(x, s[1..], f, dir, acts)
    else [x] + s
  }

  lemma {:induction false} InsertSorted(x: Speaker, s: seq<Speaker>, f: SortField, dir: Direction, acts: seq<Activity>)
    requires SortedBy(s, f, dir, acts)
    ensures SortedBy(Insert(x, s, f, dir, acts), f, dir, acts)
  {
    if s == [] {
    } else if Compare(x, s[0], f, dir, acts) > 0 {
      var rest := Insert(x, s[1..], f, dir, acts);
      SortedTail(s, f, dir, acts);
      InsertSorted(x, s[1..], f, dir, acts);
      CompareAntisymmetric(x, s[0], f, dir, acts);
      forall j | 0 <= j < |rest| ensures Compare(s[0], rest[j], f, dir, acts) <= 0 {
        assert rest[j] in multiset(s[1..]) + multiset{x};
        if rest[j] != x {
          assert rest[j] in s[1..];
          var k :| 0 <= k < |s[1..]| && s[1..][k] == rest[j];
          assert s[k + 1] == rest[j];
        }
      }
      ConsSorted(s[0], rest, f, dir, acts);
    } else {
      forall j | 0 <= j < |s| ensures Compare(x, s[j], f, dir, acts) <= 0 {
        if j > 0 {
          CompareTransitive(x, s[0], s[j], f, dir, acts);
        }
      }
      ConsSorted(x, s, f, dir, acts);
    }
  }

  /** The tail of a sorted list is sorted. */
  lemma SortedTail(s: seq<Speaker>, f: SortField, dir: Direction, acts: seq<Activity>)
    requires s != [] && SortedBy(s, f, dir, acts)
    ensures SortedBy(s[1..], f, dir, acts)
  {
    forall i, j | 0 <= i < j < |s[1..]| ensures Compare(s[1..][i], s[1..][j], f, dir, acts) <= 0 {
      assert s[1..][i] == s[i + 1] && s[1..][j] == s[j + 1];
    }
  }

  /** An element that sorts no later than every element of a sorted list may go in front of it. */
  lemma ConsSorted(y: Speaker, rest: seq<Speaker>, f: SortField, dir: Direction, acts: seq<Activity>)
    requires SortedBy(rest, f, dir, acts)
    requires forall j :: 0 <= j < |rest| ==> Compare(y, rest[j], f, dir, acts) <= 0
    ensures SortedBy([y] + rest, f, dir, acts)
  {
    var r := [y] + rest;
    forall i, j | 0 <= i < j < |r| ensures Compare(r[i], r[j], f, dir, acts) <= 0 {
      if i > 0 {
        assert r[i] == rest[i - 1] && r[j] == rest[j - 1];
      } else {
        assert r[j] == rest[j - 1];
      }
    }
  }

  /**
   * `[...filteredSpeakers].sort(comparator)`: a permutation of the list,
   * ordered by the comparator. JavaScript's sort is stable, and so is this
   * insertion sort.
   */
  function SortSpeakers(s: seq<Speaker>, f: SortField, dir: Direction, acts: seq<Activity>): (r: seq<Speaker>)
    ensures multiset(r) == multiset(s) && |r| == |s|
    ensures SortedBy(r, f, dir, acts)
  {
    if s == [] then []
    else
      var rest := SortSpeakers(s[1..], f, dir, acts);
      InsertSorted(s[0], rest, f, dir, acts);
      assert s == [s[0]] + s[1..];
      Insert(s[0], rest, f, dir, acts)
  }

  /** A list already in order comes back unchanged (the sort is stable). */
  lemma {:induction false} SortKeepsSortedList(s: seq<Speaker>, f: SortField, dir: Direction, acts: seq<Activity>)
    requires SortedBy(s, f, dir, acts)
    ensures SortSpeakers(s, f, dir, acts) == s
  {
    if s != [] {
      var t := s[1..];
      assert s == [s[0]] + t;
      SortedTail(s, f, dir, acts);
      SortKeepsSortedList(t, f, dir, acts);
      assert t == [] || Compare(s[0], t[0], f, dir, acts) <= 0;
      InsertInFront(s[0], t, f, dir, acts);
    }
  }

  /** The comparator ties two records exactly when their sort keys are equal. */
  lemma CompareZeroIffSameKey(a: Speaker, b: Speaker, f: SortField, dir: Direction, acts: seq<Activity>)
    ensures Compare(a, b, f, dir, acts) == 0 <==> SortKey(a, f, acts) == SortKey(b, f, acts)
  {
    var ka, kb := SortKey(a, f, acts), SortKey(b, f, acts);
    if ka != kb {
      StrLessTotal(ka.value, kb.value);
    } else if ka.Some? {
      StrLessIrreflexive(ka.value);
    }
  }

  /** p picks out rows the comparator ties with one another (for example, the rows with one sort key). */
  ghost predicate TiedClass(p: Speaker -> bool, f: SortField, dir: Direction, acts: seq<Activity>) {
    forall y, z {:trigger Compare(y, z, f, dir, acts)} :: p(y) && p(z) ==> Compare(y, z, f, dir, acts) == 0
  }

  /** Inserting x puts it in front of every row it ties with. */
  lemma {:induction false} FilterInsert(x: Speaker, s: seq<Speaker>, f: SortField, dir: Direction, acts: seq<Activity>, p: Speaker -> bool)
    requires TiedClass(p, f, dir, acts)
    ensures p(x) ==> Filter(Insert(x, s, f, dir, acts), p) == [x] + Filter(s, p)
    ensures !p(x) ==> Filter(Insert(x, s, f, dir, acts), p) == Filter(s, p)
  {
    if s == [] || Compare(x, s[0], f, dir, acts) <= 0 {
      InsertInFront(x, s, f, dir, acts);
      FilterCons(x, s, p);
    } else {
      var rest := Insert(x, s[1..], f, dir, acts);
      var k := Filter(s[1..], p);
      InsertPast(x, s, f, dir, acts);
      FilterInsert(x, s[1..], f, dir, acts, p);
      FilterCons(s[0], rest, p);
      assert s == [s[0]] + s[1..];
      FilterCons(s[0], s[1..], p);
      if p(x) {
        assert !p(s[0]);
        assert Filter(Insert(x, s, f, dir, acts), p) == Filter(rest, p) == [x] + k;
      } else {
        assert Filter(rest, p) == k;
      }
    }
  }

  /**
   * The sort is stable: rows the comparator ties keep their relative order,
   * as `Array.prototype.sort` guarantees.
   */
  lemma {:induction false} SortStable(s: seq<Speaker>, f: SortField, dir: Direction, acts: seq<Activity>, p: Speaker -> bool)
    requires TiedClass(p, f, dir, acts)
    ensures Filter(SortSpeakers(s, f, dir, acts), p) == Filter(s, p)
  {
    if s != [] {
      SortStable(s[1..], f, dir, acts, p);
      FilterInsert(s[0], SortSpeakers(s[1..], f, dir, acts), f, dir, acts, p);
    }
  }

  /** In particular, for every sort key the rows with that key come out in the order they went in. */
  lemma SortStableByKey(s: seq<Speaker>, f: SortField, dir: Direction, acts: seq<Activity>, v: Option<string>)
    ensures Filter(SortSpeakers(s, f, dir, acts), y => SortKey(y, f, acts) == v)
         == Filter(s, y => SortKey(y, f, acts) == v)
  {
    var p := y => SortKey(y, f, acts) == v;
    forall y, z | p(y) && p(z) ensures Compare(y, z, f, dir, acts) == 0 {
      CompareZeroIffSameKey(y, z, f, dir, acts);
    }
    SortStable(s, f, dir, acts, p);
  }

  /** An element that sorts after the head is inserted into the tail. */
  lemma InsertPast(x: Speaker, s: seq<Speaker>, f: SortField, dir: Direction, acts: seq<Activity>)
    requires s != [] && Compare(x, s[0], f, dir, acts) > 0
    ensures Insert(x, s, f, dir, acts) == [s[0]] + Insert(x, s[1..], f, dir, acts)
  {
  }

  /** An element that sorts no later than the head is inserted in front. */
  lemma InsertInFront(x: Speaker, t: seq<Speaker>, f: SortField, dir: Direction, acts: seq<Activity>)
    requires t == [] || Compare(x, t[0], f, dir, acts) <= 0
    ensures Insert(x, t, f, dir, acts) == [x] + t
  {
  }

  /** Sorting on a column no record has (the comparator always returns 0) leaves the order unchanged. */
  lemma SortOnMissingKeyIsIdentity(s: seq<Speaker>, dir: Direction, acts: seq<Activity>)
    ensures SortSpeakers(s, BySocial, dir, acts) == s
  {
    SortKeepsSortedList(s, BySocial, dir, acts);
  }

  /** The sort column and direction held by the list. */
  datatype SortState = SortState(field: SortField, dir: Direction)

  function Flip(d: Direction): Direction {
    if d == Asc then Desc else Asc
  }

  /** `handleSort(field)`: the same column flips the direction; another column sorts ascending. */
  function ToggleSort(st: SortState, field: SortField): (r: SortState)
    ensures r.field == field
    ensures st.field == field ==> r.dir != st.dir
    ensures st.field != field ==> r.dir == Asc
  {
    if st.field == field then SortState(field, Flip(st.dir)) else SortState(field, Asc)
  }

  /** Clicking the current column twice restores the direction. */
  lemma ToggleSortTwiceRestores(st: SortState)
    ensures ToggleSort(ToggleSort(st, st.field), st.field) == st
  {
  }

  /** Clicking a new column twice leaves it sorted descending. */
  lemma ToggleNewFieldTwice(st: SortState, field: SortField)
    requires st.field != field
    ensures ToggleSort(ToggleSort(st, field), field) == SortState(field, Desc)
  {
  }

  // ---------------------------------------------------------------------------
  // Pagination

  const ItemsPerPage := 8

  /** `Math.ceil(n / itemsPerPage)`: the fewest pages of eight that hold n rows. */
  function TotalPages(n: nat): (t: nat)
    ensures t * ItemsPerPage >= n
    ensures t == 0 || (t - 1) * ItemsPerPage < n
    ensures t == 0 <==> n == 0
  {
    (n + ItemsPerPage - 1) / ItemsPerPage
  }

  /** `sortedSpeakers.slice((page - 1) * itemsPerPage, page * itemsPerPage)`. */
  function PageOf<T>(s: seq<T>, page: int): seq<T> {
    JsSlice(s, (page - 1) * ItemsPerPage, page * ItemsPerPage)
  }

  function Min(a: int, b: int): int {
    if a <= b then a else b
  }

  /**
   * Page p (from 1) holds rows (p-1)*8 up to p*8 of the list: eight rows,
   * fewer on the last page, none beyond it.
   */
  lemma PageContents<T>(s: seq<T>, page: int)
    requires page >= 1
    ensures (page - 1) * ItemsPerPage >= |s| ==> PageOf(s, page) == []
    ensures (page - 1) * ItemsPerPage < |s| ==>
      PageOf(s, page) == s[(page - 1) * ItemsPerPage .. Min(page * ItemsPerPage, |s|)]
    ensures |PageOf(s, page)| == if (page - 1) * ItemsPerPage < |s| then Min(ItemsPerPage, |s| - (page - 1) * ItemsPerPage) else 0
  {
  }

  /** A page number between 1 and the page count always shows at least one row. */
  lemma AcceptedPageIsNonEmpty<T>(s: seq<T>, page: int)
    requires 1 <= page <= TotalPages(|s|)
    ensures |PageOf(s, page)| >= 1
  {
    PageContents(s, page);
  }

  /** The rows of pages 1 to k, one after the other. */
  function PagesUpTo<T>(s: seq<T>, k: nat): seq<T> {
    if k == 0 then [] else PagesUpTo(s, k - 1) + PageOf(s, k)
  }

  lemma {:induction false} PagesUpToIsPrefix<T>(s: seq<T>, k: nat)
    ensures PagesUpTo(s, k) == s[..Min(k * ItemsPerPage, |s|)]
  {
    if k > 0 {
      PagesUpToIsPrefix(s, k - 1);
      PageContents(s, k);
    }
  }

  /** The pages 1..totalPages together show every row exactly once, in order. */
  lemma PagesCoverList<T>(s: seq<T>)
    ensures PagesUpTo(s, TotalPages(|s|)) == s
  {
    PagesUpToIsPrefix(s, TotalPages(|s|));
  }

  /**
   * The page buttons shown when there are more than eight pages: up to five
   * consecutive pages around the current one, never outside 1..total.
   */
  method PageWindow(current: int, total: int) returns (pages: seq<int>)
    ensures forall i :: 0 <= i < |pages| ==> pages[i] == pages[0] + i
    ensures forall i :: 0 <= i < |pages| ==> 1 <= pages[i] <= total
    ensures |pages| <= 5
    ensures total >= 5 ==> |pages| == 5
    ensures total >= 5 && 1 <= current <= total ==> current in pages
    ensures total >= 5 && 1 <= current <= total ==>
      pages[0] == if current - 2 < 1 then 1 else if current - 2 > total - 4 then total - 4 else current - 2
    ensures 1 <= total < 5 ==> |pages| == total && pages[0] == 1
    ensures total <= 0 ==> pages == []
  {
    pages := [];
    var startPage := if current - 2 > 1 then current - 2 else 1;
    var endPage := if total < startPage + 4 then total else startPage + 4;
    if endPage - startPage < 4 {
      startPage := if endPage - 4 > 1 then endPage - 4 else 1;
    }
    var i := startPage;
    while i <= endPage
      invariant startPage <= i
      invariant i <= endPage + 1 || (i == startPage && endPage < startPage)
      invariant |pages| == i - startPage
      invariant forall k :: 0 <= k < |pages| ==> pages[k] == startPage + k
    {
      pages := pages + [i];
      i := i + 1;
    }
    if current >= 1 && current <= total && total >= 5 {
      assert pages[current - startPage] == current;
    }
  }

  // ---------------------------------------------------------------------------
  // Display helpers

  /** `s.lastIndexOf(c)`: the last position holding c, or -1. */
  function LastIndexOf(s: string, c: char): (r: int)
    ensures -1 <= r < |s|
    ensures r >= 0 ==> s[r] == c
    ensures forall k :: r < k < |s| ==> s[k] != c
  {
    if s == [] then -1
    else if s[|s| - 1] == c then |s| - 1
    else LastIndexOf(s[..|s| - 1], c)
  }

  const DefaultMaxLength := 80

  /**
   * `truncateText(text, maxLength)`: empty or short text is returned as is;
   * longer text is cut to at most maxLength characters, at the last space
   * when there is one after the first character, and ends in "...".
   */
  function TruncateText(text: string, maxLength: nat): (r: string)
    ensures text == "" || |text| <= maxLength ==> r == text
    ensures text != "" && |text| > maxLength ==>
      var cut := |r| - 3;
      && 0 <= cut <= maxLength
      && r == text[..cut] + "..."
      && (cut < maxLength ==> 0 < cut && text[cut] == ' ' && forall k :: cut < k < maxLength ==> text[k] != ' ')
      && (cut == maxLength ==> forall k :: 0 < k < maxLength ==> text[k] != ' ')
  {
    if text == "" || |text| <= maxLength then text
    else
      var lastSpace := LastIndexOf(text[..maxLength], ' ');
      var cut := if lastSpace > 0 then lastSpace else maxLength;
      text[..cut] + "..."
  }

  /** `name.split(' ')`: the pieces between single spaces, empty pieces included. */
  function SplitOnSpace(s: string): (words: seq<string>)
    ensures |words| >= 1
    ensures forall i :: 0 <= i < |words| ==> ' ' !in words[i]
    ensures JoinWords(words) == s
  {
    if s == [] then [""]
    else if s[0] == ' ' then
      var rest := SplitOnSpace(s[1..]);
      assert s == " " + s[1..];
      [""] + rest
    else
      var rest := SplitOnSpace(s[1..]);
      var words := [[s[0]] + rest[0]] + rest[1..];
      assert s == [s[0]] + s[1..];
      assert words[1..] == rest[1..];
      assert |rest| > 1 ==> JoinWords(rest) == rest[0] + " " + JoinWords(rest[1..]);
      words
  }

  /** `words.join(' ')`. */
  function JoinWords(words: seq<string>): string {
    if words == [] then ""
    else if |words| == 1 then words[0]
    else words[0] + " " + JoinWords(words[1..])
  }

  /** `words.map(word => word[0]).join('')`: an empty word contributes nothing. */
  function HeadsJoined(words: seq<string>): string {
    if words == [] then ""
    else (if words[0] == "" then "" else [words[0][0]]) + HeadsJoined(words[1..])
  }

  /** The characters of s that start a word: not a space, and first or after a space. */
  function WordStarts(s: string, afterSpace: bool): string {
    if s == [] then ""
    else (if s[0] != ' ' && afterSpace then [s[0]] else "") + WordStarts(s[1..], s[0] == ' ')
  }

  lemma {:induction false} HeadsOfSplit(s: string)
    ensures HeadsJoined(SplitOnSpace(s)) == WordStarts(s, true)
    ensures HeadsJoined(SplitOnSpace(s)[1..]) == WordStarts(s, false)
  {
    if s != [] {
      HeadsOfSplit(s[1..]);
      var rest := SplitOnSpace(s[1..]);
      if s[0] == ' ' {
        assert SplitOnSpace(s)[1..] == rest;
      } else {
        var words := SplitOnSpace(s);
        assert words[0] == [s[0]] + rest[0];
        assert words[1..] == rest[1..];
        assert HeadsJoined(rest) == (if rest[0] == "" then "" else [rest[0][0]]) + HeadsJoined(rest[1..]);
      }
    }
  }

  /** `getInitials(name)`: the first two word-initial characters of the name, upper-cased. */
  function GetInitials(name: string): (r: string)
    ensures |r| <= 2
    ensures var starts := Upper(WordStarts(name, true));
      r == starts[..Min(2, |starts|)]
  {
    HeadsOfSplit(name);
    var joined := Upper(HeadsJoined(SplitOnSpace(name)));
    joined[..Min(2, |joined|)]
  }
}
