/** The analysis history page: fetch the current user's saved analyses, keep the first of
    each chart configuration, and drop an entry from the list once the server deletes it. */
module AnalysisHistory {
  import opened Common
  import opened Records

  /** The configuration key: chart type, x axis and y axis joined with dashes. */
  function Key(a: Analysis): (k: string)
    ensures |k| == |a.chartType| + |a.xAxis| + |a.yAxis| + 2
  {
    a.chartType + "-" + a.xAxis + "-" + a.yAxis
  }

  /** `deduplicateAnalyses`: a filter that remembers the keys it has let through. */
  method Deduplicate(data: seq<Analysis>) returns (unique: seq<Analysis>)
    ensures unique == KeepFirst(data, Key, {})
  {
    var seen: set<string> := {};
    unique := [];
    var i := 0;
    while i < |data|
      invariant 0 <= i <= |data|
      invariant unique + KeepFirst(data[i..], Key, seen) == KeepFirst(data, Key, {})
    {
      var a := data[i];
      assert data[i..][1..] == data[i + 1..];
      if Key(a) in seen {
      } else {
        seen := seen + {Key(a)};
        unique := unique + [a];
      }
      i := i + 1;
    }
  }

  /** The kept analyses are the input's in their original order, no two share a key, every
      key of the input survives, and running the de-duplication again changes nothing. */
  lemma DeduplicateProperties(data: seq<Analysis>)
    ensures IsSubseq(KeepFirst(data, Key, {}), data)
    ensures forall i, j :: 0 <= i < j < |KeepFirst(data, Key, {})| ==>
              Key(KeepFirst(data, Key, {})[i]) != Key(KeepFirst(data, Key, {})[j])
    ensures KeySet(KeepFirst(data, Key, {}), Key) == KeySet(data, Key)
    ensures KeepFirst(KeepFirst(data, Key, {}), Key, {}) == KeepFirst(data, Key, {})
  {
    KeepFirstIsSubseq(data, Key, {});
    KeepFirstKeysDistinct(data, Key, {});
    KeepFirstKeySet(data, Key, {});
    KeepFirstIdempotent(data, Key);
  }

  /** The first analysis with a key is kept, and a different later one with the same key is not. */
  lemma DeduplicateKeepsFirst(data: seq<Analysis>, i: nat, j: nat)
    requires i < j < |data| && Key(data[i]) == Key(data[j]) && data[i] != data[j]
    requires forall k :: 0 <= k < i ==> Key(data[k]) != Key(data[i])
    ensures data[i] in KeepFirst(data, Key, {})
    ensures data[j] !in KeepFirst(data, Key, {})
  {
    KeepFirstKeepsFirst(data, Key, {}, i);
    KeepFirstDropsLater(data, Key, i, j);
  }

  /** The key does not escape dashes: a line chart of "a-b" against "c" by "d" and one of "a"
      against "b-c" by "d" share a key, so only the first survives. */
  lemma DashCollision(first: Analysis, second: Analysis)
    requires first.chartType == "a-b" && first.xAxis == "c" && first.yAxis == "d"
    requires second.chartType == "a" && second.xAxis == "b-c" && second.yAxis == "d"
    ensures Key(first) == Key(second)
    ensures KeepFirst([first, second], Key, {}) == [first]
  {
    assert Key(first) == "a-b-c-d";
    assert Key(second) == "a-b-c-d";
    assert [first, second][1..] == [second];
  }

  /** What the page shows. */
  datatype PageState = PageState(analyses: seq<Analysis>, loading: bool, deleteStatus: string, fetchError: string)

  const Initial := PageState([], true, "", "")

  /** What the first effect does: without a current email it sets an error and stops; otherwise
      it requests the email's analyses. */
  datatype FetchStep = NotAuthenticated(state: PageState) | Request(path: string)

  function StartFetch(state: PageState, email: Option<string>): (r: FetchStep)
    ensures !Truthy(email) <==> r.NotAuthenticated?
    ensures r.NotAuthenticated? ==>
              r.state == state.(fetchError := "⚠️ User not authenticated.", loading := false)
    ensures r.Request? ==> r.path == "/chart-analysis/user/" + email.value && EndsWith(r.path, email.value)
  {
    if !Truthy(email) then NotAuthenticated(state.(fetchError := "⚠️ User not authenticated.", loading := false))
    else Request("/chart-analysis/user/" + email.value)
  }

  /** The request's outcome: the fetched records, or `None` when it failed. */
  function Fetched(state: PageState, response: Option<seq<Analysis>>): (r: PageState)
    ensures !r.loading
    ensures response.Some? ==> r.analyses == KeepFirst(response.value, Key, {}) && r.fetchError == state.fetchError
    ensures response.None? ==> r.analyses == state.analyses && r.fetchError == "⚠️ Unable to load analysis history."
  {
    match response
    case Some(data) => state.(analyses := KeepFirst(data, Key, {}), loading := false)
    case None => state.(fetchError := "⚠️ Unable to load analysis history.", loading := false)
  }

  function WithoutId(analyses: seq<Analysis>, id: nat): seq<Analysis> {
    Filter(analyses, (a: Analysis) => a.id != id)
  }

  /** `handleDelete(id)` after the server answered (`deleted`) or failed. */
  function AfterDelete(state: PageState, id: nat, deleted: bool): (r: PageState)
    ensures deleted ==> r.deleteStatus == "✅ Deleted successfully." && IsSubseq(r.analyses, state.analyses)
    ensures deleted ==> forall a :: a in r.analyses <==> a in state.analyses && a.id != id
    ensures !deleted ==> r.analyses == state.analyses && r.deleteStatus == "⚠️ Failed to delete analysis."
    ensures r.loading == state.loading && r.fetchError == state.fetchError
  {
    if deleted then
      FilterIsSubseq(state.analyses, (a: Analysis) => a.id != id);
      state.(analyses := WithoutId(state.analyses, id), deleteStatus := "✅ Deleted successfully.")
    else state.(deleteStatus := "⚠️ Failed to delete analysis.")
  }

  /** A deleted entry stays gone: deleting it again changes no list. */
  lemma DeleteIdempotent(analyses: seq<Analysis>, id: nat)
    ensures WithoutId(WithoutId(analyses, id), id) == WithoutId(analyses, id)
  {
    FilterAllKept(WithoutId(analyses, id), (a: Analysis) => a.id != id);
  }
}
