/** The compute instance list: text search and status filter, the reset to
    page one whenever the query, the filter or the data change, and the
    six-per-page pagination. */
module InstanceList {
  import opened Common
  import opened Text
  import opened Compute
  import Seqs

  const ItemsPerPage := 6

  /** The status filter's value that shows every status. */
  const AllStatuses := "All"

  /** The search test: the query occurs, ignoring ASCII case, in the name or
      the id, or occurs as typed in the IP address. */
  predicate MatchesQuery(x: ComputeInstance, query: string) {
    || Contains(ToLower(x.name), ToLower(query))
    || Contains(ToLower(x.id), ToLower(query))
    || Contains(x.ip, query)
  }

  predicate MatchesStatus(x: ComputeInstance, statusFilter: string) {
    statusFilter == AllStatuses || StatusName(x.status) == statusFilter
  }

  function SearchStep(data: seq<ComputeInstance>, query: string): (r: seq<ComputeInstance>)
    ensures query == "" ==> r == data
    ensures forall i :: 0 <= i < |r| ==> r[i] in data && MatchesQuery(r[i], query)
    ensures forall i :: 0 <= i < |data| && MatchesQuery(data[i], query) ==> data[i] in r
    ensures Seqs.IsSubsequence(r, data)
    ensures forall x :: multiset(r)[x] == if MatchesQuery(x, query) then multiset(data)[x] else 0
  {
    if query == "" then (Seqs.SubsequenceReflexive(data); data)
    else Seqs.Filter(data, (x: ComputeInstance) => MatchesQuery(x, query))
  }

  function StatusStep(data: seq<ComputeInstance>, statusFilter: string): (r: seq<ComputeInstance>)
    ensures statusFilter == AllStatuses ==> r == data
    ensures forall i :: 0 <= i < |r| ==> r[i] in data && MatchesStatus(r[i], statusFilter)
    ensures forall i :: 0 <= i < |data| && MatchesStatus(data[i], statusFilter) ==> data[i] in r
    ensures Seqs.IsSubsequence(r, data)
    ensures forall x :: multiset(r)[x] == if MatchesStatus(x, statusFilter) then multiset(data)[x] else 0
  {
    if statusFilter == AllStatuses then (Seqs.SubsequenceReflexive(data); data)
    else Seqs.Filter(data, (x: ComputeInstance) => StatusName(x.status) == statusFilter)
  }

  /** The filter effect: the instances matching the query (when there is one)
      and the status filter, in their original order. */
  function FilterInstances(data: seq<ComputeInstance>, query: string, statusFilter: string): (r: seq<ComputeInstance>)
    ensures forall i :: 0 <= i < |r| ==> r[i] in data
    ensures forall i :: 0 <= i < |r| ==> query != "" ==> MatchesQuery(r[i], query)
    ensures forall i :: 0 <= i < |r| ==> statusFilter != AllStatuses ==> StatusName(r[i].status) == statusFilter
    ensures forall i :: 0 <= i < |data| && MatchesQuery(data[i], query) && MatchesStatus(data[i], statusFilter) ==> data[i] in r
    ensures Seqs.IsSubsequence(r, data)
    ensures query == "" && statusFilter == AllStatuses ==> r == data
    ensures forall x :: multiset(r)[x] == if MatchesQuery(x, query) && MatchesStatus(x, statusFilter) then multiset(data)[x] else 0
  {
    var searched := SearchStep(data, query);
    var r := StatusStep(searched, statusFilter);
    Seqs.SubsequenceTransitive(r, searched, data);
    r
  }

  /** Choosing one status, with no query, keeps every copy of the instances
      in that status and nothing else: status names never collide. */
  lemma StatusFilterSelectsOneStatus(data: seq<ComputeInstance>, s: ComputeStatus)
    ensures var r := FilterInstances(data, "", StatusName(s));
      forall x :: multiset(r)[x] == if x.status == s then multiset(data)[x] else 0
  {
    var r := FilterInstances(data, "", StatusName(s));
    forall x: ComputeInstance
      ensures multiset(r)[x] == if x.status == s then multiset(data)[x] else 0
    {
      StatusNameInjective(x.status, s);
      StatusNameInjective(s, s);
      assert ToLower("") == "";
      assert MatchesQuery(x, "");
    }
  }

  /** The list's state: the loaded data, the filtered list, the controls and
      the current page (1-based). */
  datatype ListState = ListState(
    data: seq<ComputeInstance>,
    filtered: seq<ComputeInstance>,
    query: string,
    statusFilter: string,
    page: int)

  /** The state before the data arrives. */
  const Initial := ListState([], [], "", AllStatuses, 1)

  /** The filtered list is what the filter effect computes from the rest. */
  predicate Consistent(st: ListState) {
    st.filtered == FilterInstances(st.data, st.query, st.statusFilter)
  }

  /** `ceil(n / 6)`: the least number of pages of six that hold `n` items. */
  function TotalPages(n: nat): (r: nat)
    ensures r * ItemsPerPage >= n
    ensures r == 0 || (r - 1) * ItemsPerPage < n
  {
    (n + ItemsPerPage - 1) / ItemsPerPage
  }

  /** The current page is one a page change could select, or page one. */
  predicate ValidPage(st: ListState) {
    st.page == 1 || 1 <= st.page <= TotalPages(|st.filtered|)
  }

  /** The filter effect, run after a change of query, filter or data: the list
      is recomputed and the page returns to 1. */
  function Refilter(st: ListState): (r: ListState)
    ensures r.data == st.data && r.query == st.query && r.statusFilter == st.statusFilter
    ensures Consistent(r) && r.page == 1 && ValidPage(r)
  {
    st.(filtered := FilterInstances(st.data, st.query, st.statusFilter), page := 1)
  }

  /** Typing in the search box. Setting the same query is no change, so the
      effect does not run and the page is kept. */
  function SetQuery(st: ListState, query: string): (r: ListState)
    ensures query == st.query ==> r == st
    ensures query != st.query ==>
      r.query == query && r.data == st.data && r.statusFilter == st.statusFilter
      && r.page == 1 && Consistent(r)
    ensures ValidPage(st) ==> ValidPage(r)
  {
    if query == st.query then st else Refilter(st.(query := query))
  }

  /** Choosing a status filter; same-value selections are no change. */
  function SetStatusFilter(st: ListState, statusFilter: string): (r: ListState)
    ensures statusFilter == st.statusFilter ==> r == st
    ensures statusFilter != st.statusFilter ==>
      r.statusFilter == statusFilter && r.data == st.data && r.query == st.query
      && r.page == 1 && Consistent(r)
    ensures ValidPage(st) ==> ValidPage(r)
  {
    if statusFilter == st.statusFilter then st else Refilter(st.(statusFilter := statusFilter))
  }

  /** The simulated fetch: the data and the filtered list are both set to the
      loaded instances, then the effect runs because the data changed. */
  function Load(st: ListState, loaded: seq<ComputeInstance>): (r: ListState)
    ensures r.data == loaded && r.page == 1 && Consistent(r)
    ensures r.query == st.query && r.statusFilter == st.statusFilter
    ensures st.query == "" && st.statusFilter == AllStatuses ==> r.filtered == loaded
  {
    Refilter(st.(data := loaded, filtered := loaded))
  }

  /** Instance creation: the new instance goes in front of the data, which
      always counts as a change, so the list is refiltered and page 1 shown. */
  function CreateInstance(st: ListState, x: ComputeInstance): (r: ListState)
    ensures r.data == [x] + st.data && r.page == 1 && Consistent(r)
    ensures r.query == st.query && r.statusFilter == st.statusFilter
  {
    Refilter(st.(data := [x] + st.data))
  }

  /** The index of the first item on the current page. */
  function StartIndex(st: ListState): int {
    (st.page - 1) * ItemsPerPage
  }

  /** The items shown: at most six, those of the current page. */
  function CurrentItems(st: ListState): (r: seq<ComputeInstance>)
    ensures |r| <= ItemsPerPage
    ensures ValidPage(st) && |st.filtered| > 0 ==>
      var start := (st.page - 1) * ItemsPerPage;
      && 0 <= start < |st.filtered|
      && r == st.filtered[start..if start + ItemsPerPage <= |st.filtered| then start + ItemsPerPage else |st.filtered|]
    ensures |st.filtered| == 0 ==> r == []
  {
    var start := StartIndex(st);
    Seqs.Slice(st.filtered, start, start + ItemsPerPage)
  }

  /** A page change is taken only for a page between 1 and the page count. */
  function ChangePage(st: ListState, page: int): (r: ListState)
    ensures 1 <= page <= TotalPages(|st.filtered|) ==> r == st.(page := page)
    ensures !(1 <= page <= TotalPages(|st.filtered|)) ==> r == st
    ensures ValidPage(st) ==> ValidPage(r)
  {
    if page >= 1 && page <= TotalPages(|st.filtered|) then st.(page := page) else st
  }

  /** The "Showing a to b of n entries" line, shown only when something
      matches: `a` is one past the start index and `b` the last item shown. */
  function ShowingRange(st: ListState): (r: Option<(int, int)>)
    ensures r.None? <==> |st.filtered| == 0
    ensures r.Some? && ValidPage(st) ==>
      && r.value.0 == StartIndex(st) + 1
      && r.value.1 - r.value.0 + 1 == |CurrentItems(st)|
      && 1 <= r.value.0 <= r.value.1 <= |st.filtered|
  {
    if |st.filtered| == 0 then None
    else
      var start := StartIndex(st);
      var last := if start + ItemsPerPage < |st.filtered| then start + ItemsPerPage else |st.filtered|;
      Some((start + 1, last))
  }

  /** With no query and no status filter, a newly created instance is the
      first card of the page shown. */
  lemma CreatedInstanceShownFirst(st: ListState, x: ComputeInstance)
    requires st.query == "" && st.statusFilter == AllStatuses
    ensures var r := CreateInstance(st, x);
      |CurrentItems(r)| >= 1 && CurrentItems(r)[0] == x
  {
    var r := CreateInstance(st, x);
    assert r.filtered == [x] + st.data;
  }
}
