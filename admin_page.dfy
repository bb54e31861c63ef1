/**
 * The state of the admin speaker screen and the operations that change it:
 * loading the list, choosing the sort column, moving between pages,
 * validating the form and reordering speakers.
 */
module AdminPage {
  import opened Wrappers
  import opened Seqs
  import opened JsValues
  import opened AdminForm
  import opened AdminList

  /** What the list request produced: a response body, or a failed request. */
  datatype FetchOutcome = Response(data: ResponseData) | Failure

  const FetchFailed := "Failed to fetch speakers. Please try again."

  datatype MoveDirection = Up | Down

  /** `direction === 'up' ? index - 1 : index + 1`. */
  function MoveTarget(index: int, direction: MoveDirection): int {
    if direction == Up then index - 1 else index + 1
  }

  /** One entry of the body sent to the reorder endpoint. */
  datatype OrderUpdate = OrderUpdate(id: JsVal, order: nat)

  /** Exchanges two cells of an array in place. */
  method SwapCells<T>(a: array<T>, i: int, j: int)
    requires 0 <= i < a.Length && 0 <= j < a.Length
    modifies a
    ensures a[..] == Swap(old(a[..]), i, j)
  {
    a[i], a[j] := a[j], a[i];
  }

  /**
   * Copies the rows into an array, swaps two of them in place, and lists
   * each row's id with its position in the swapped copy.
   */
  method SwappedOrder(view: seq<Speaker>, i: int, j: int) returns (result: seq<OrderUpdate>)
    requires 0 <= i < |view| && 0 <= j < |view|
    ensures |result| == |view|
    ensures forall k :: 0 <= k < |view| ==> result[k].order == k
    ensures result[i].id == view[j].id && result[j].id == view[i].id
    ensures forall k :: 0 <= k < |view| && k != i && k != j ==> result[k].id == view[k].id
  {
    var a := new Speaker[|view|](k requires 0 <= k < |view| => view[k]);
    assert a[..] == view;
    SwapCells(a, i, j);
    ghost var swapped := a[..];
    assert swapped == Swap(view, i, j);
    result := [];
    for k := 0 to a.Length
      invariant |result| == k
      invariant forall m :: 0 <= m < k ==> result[m] == OrderUpdate(a[m].id, m)
    {
      result := result + [OrderUpdate(a[k].id, k)];
    }
  }

  class SpeakerManagement {
    var speakers: seq<Speaker>
    var error: Option<string>
    var searchQuery: string
    var filterActivity: JsVal
    var activities: seq<Activity>
    var sortField: SortField
    var sortDirection: Direction
    var currentPage: int
    var goToPage: string
    var formData: FormData
    var errors: map<ErrorField, Message>

    /** The initial state: empty list, no filter, sorted by name ascending, on page 1, with the empty form. */
    constructor (acts: seq<Activity>)
      ensures speakers == [] && error == None && searchQuery == "" && filterActivity == Null
      ensures activities == acts && sortField == ByName && sortDirection == Asc
      ensures currentPage == 1 && goToPage == "" && formData == EmptyForm && errors == map[]
    {
      speakers := [];
      error := None;
      searchQuery := "";
      filterActivity := Null;
      activities := acts;
      sortField := ByName;
      sortDirection := Asc;
      currentPage := 1;
      goToPage := "";
      formData := EmptyForm;
      errors := map[];
    }

    /** The rows passing the search box and the activity selector. */
    function FilteredSpeakers(): seq<Speaker>
      reads this
    {
      FilterSpeakers(speakers, searchQuery, filterActivity)
    }

    /** The filtered rows in the chosen column order. */
    function SortedSpeakers(): seq<Speaker>
      reads this
    {
      SortSpeakers(FilteredSpeakers(), sortField, sortDirection, activities)
    }

    function TotalPageCount(): nat
      reads this
    {
      TotalPages(|SortedSpeakers()|)
    }

    /** The rows of the current page. */
    function PaginatedSpeakers(): seq<Speaker>
      reads this
    {
      PageOf(SortedSpeakers(), currentPage)
    }

    /**
     * `fetchSpeakers`: a response replaces the list with its normalised
     * records and clears the error; a failed request keeps the list and
     * sets the error message.
     */
    method FetchSpeakers(outcome: FetchOutcome)
      modifies this`speakers, this`error
      ensures outcome.Response? ==> speakers == NormaliseResponse(outcome.data) && error == None
      ensures outcome.Failure? ==> speakers == old(speakers) && error == Some(FetchFailed)
    {
      error := None;
      match outcome
      case Response(data) =>
        speakers := NormaliseResponse(data);
      case Failure =>
        error := Some(FetchFailed);
    }

    /**
     * `handleSort(field)`: toggles the direction on the current column,
     * otherwise sorts the new column ascending. The rows shown stay the same
     * rows, only their order changes.
     */
    method HandleSort(field: SortField)
      modifies this`sortField, this`sortDirection
      ensures SortState(sortField, sortDirection) == ToggleSort(SortState(old(sortField), old(sortDirection)), field)
      ensures multiset(SortedSpeakers()) == multiset(old(SortedSpeakers()))
    {
      ghost var filtered := FilteredSpeakers();
      ghost var before := SortedSpeakers();
      if sortField == field {
        sortDirection := if sortDirection == Asc then Desc else Asc;
      } else {
        sortField := field;
        sortDirection := Asc;
      }
      assert FilteredSpeakers() == filtered;
      assert multiset(SortedSpeakers()) == multiset(filtered) == multiset(before);
    }

    /**
     * The go-to-page check: a parsed number (None when `parseInt` gives NaN)
     * between 1 and the page count becomes the current page and clears the
     * input; anything else changes nothing. An accepted page is never empty.
     */
    method GoToPage(pageNum: Option<int>)
      modifies this`currentPage, this`goToPage
      ensures pageNum.Some? && 1 <= pageNum.value <= old(TotalPageCount()) ==>
        currentPage == pageNum.value && goToPage == "" && |PageOf(old(SortedSpeakers()), currentPage)| >= 1
      ensures !(pageNum.Some? && 1 <= pageNum.value <= old(TotalPageCount())) ==>
        currentPage == old(currentPage) && goToPage == old(goToPage)
    {
      var view := SortedSpeakers();
      if pageNum.Some? && pageNum.value >= 1 && pageNum.value <= TotalPages(|view|) {
        AcceptedPageIsNonEmpty(view, pageNum.value);
        currentPage := pageNum.value;
        goToPage := "";
      }
    }

    /** The previous-page button: one page back, never below page 1. */
    method PreviousPage()
      modifies this`currentPage
      ensures currentPage == if old(currentPage) - 1 > 1 then old(currentPage) - 1 else 1
      ensures currentPage >= 1
    {
      currentPage := if currentPage - 1 > 1 then currentPage - 1 else 1;
    }

    /** The next-page button: one page on, never beyond the page count. */
    method NextPage()
      modifies this`currentPage
      ensures currentPage == if old(currentPage) + 1 < old(TotalPageCount()) then old(currentPage) + 1 else old(TotalPageCount())
      ensures currentPage <= TotalPageCount()
    {
      var total := TotalPageCount();
      currentPage := if currentPage + 1 < total then currentPage + 1 else total;
    }

    /**
     * `validateStep(1)`: stores the errors of the form (the name's under the
     * key eventName, the description's, and one per invalid social URL) and
     * reports whether there were none.
     */
    method ValidateForm() returns (ok: bool)
      modifies this`errors
      ensures ok <==> |errors| == 0
      ensures ok <==> formData.name != "" && formData.description != "" && forall p :: SocialOk(formData, p)
      ensures EventName in errors <==> formData.name == ""
      ensures EventName in errors ==> errors[EventName] == NameRequired
      ensures Description in errors <==> formData.description == ""
      ensures Description in errors ==> errors[Description] == DescriptionRequired
      ensures forall p :: SocialUrl(p) in errors <==> !SocialOk(formData, p)
      ensures forall p :: SocialUrl(p) in errors ==> errors[SocialUrl(p)] == InvalidUrl(p)
    {
      var newErrors;
      ok, newErrors := ValidateStep1(formData);
      errors := newErrors;
    }

    /**
     * `moveSpeaker(index, direction)`: copies the sorted, filtered rows,
     * swaps the row with its neighbour in place, and returns the body for the
     * reorder endpoint, each row's id with its new position. Nothing is sent
     * when the neighbour does not exist.
     */
    method MoveSpeaker(index: int, direction: MoveDirection) returns (updates: Option<seq<OrderUpdate>>)
      requires 0 <= index < |SortedSpeakers()|
      ensures var t := MoveTarget(index, direction);
        updates.None? <==> t < 0 || t >= |SortedSpeakers()|
      ensures updates.Some? ==>
        var view, t := SortedSpeakers(), MoveTarget(index, direction);
        && |updates.value| == |view|
        && (forall k :: 0 <= k < |view| ==> updates.value[k].order == k)
        && updates.value[index].id == view[t].id
        && updates.value[t].id == view[index].id
        && (forall k :: 0 <= k < |view| && k != index && k != t ==> updates.value[k].id == view[k].id)
    {
      var view := SortedSpeakers();
      var target := MoveTarget(index, direction);
      if target < 0 || target >= |view| {
        return None;
      }
      var result := SwappedOrder(view, index, target);
      updates := Some(result);
    }
  }
}
