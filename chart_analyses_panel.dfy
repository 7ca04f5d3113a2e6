/** The chart-analyses panel: who may open it, the chart-type and date filters over the
    listed analyses, the chart types offered in the filter, and what the table area shows.
    The ISO rendering of a timestamp is a parameter `iso` standing for
    `new Date(t).toISOString()`. */
module ChartAnalysesPanel {
  import opened Common
  import opened Records

  /** The first effect: a viewer who is not an admin or a superadmin is sent to the dashboard
      and nothing is fetched. */
  datatype Start = RedirectToDashboard | FetchAnalyses

  function OnMount(viewerRole: Option<string>): (s: Start)
    ensures s == FetchAnalyses <==> viewerRole == Some(AdminRole) || viewerRole == Some(SuperAdminRole)
  {
    if viewerRole.Some? && viewerRole.value in [AdminRole, SuperAdminRole] then FetchAnalyses
    else RedirectToDashboard
  }

  /** `s.slice(0, 10)`. */
  function Slice10(s: string): (r: string)
    ensures |r| == if |s| < 10 then |s| else 10
    ensures r == s[..|r|]
  {
    if |s| < 10 then s else s[..10]
  }

  /** The day of an analysis: the first ten characters of its ISO timestamp. */
  function Day(a: Analysis, iso: int -> string): string {
    Slice10(iso(a.createdAt))
  }

  /** An empty filter matches everything; a non-empty one must equal the field exactly. */
  predicate Matches(a: Analysis, typeFilter: string, dateFilter: string, iso: int -> string) {
    && (typeFilter == "" || a.chartType == typeFilter)
    && (dateFilter == "" || Day(a, iso) == dateFilter)
  }

  /** `filteredAnalyses`. */
  function Filtered(analyses: seq<Analysis>, typeFilter: string, dateFilter: string, iso: int -> string): (r: seq<Analysis>)
    ensures |r| <= |analyses|
  {
    Filter(analyses, (a: Analysis) => Matches(a, typeFilter, dateFilter, iso))
  }

  /** The filtered list keeps exactly the matching analyses, in their listed order. */
  lemma FilteredExact(analyses: seq<Analysis>, typeFilter: string, dateFilter: string, iso: int -> string)
    ensures IsSubseq(Filtered(analyses, typeFilter, dateFilter, iso), analyses)
    ensures forall a :: a in Filtered(analyses, typeFilter, dateFilter, iso) <==>
              a in analyses && (typeFilter == "" || a.chartType == typeFilter)
              && (dateFilter == "" || Day(a, iso) == dateFilter)
  {
    FilterIsSubseq(analyses, (a: Analysis) => Matches(a, typeFilter, dateFilter, iso));
  }

  /** With both filters empty, every analysis is listed. */
  lemma NoFilterListsAll(analyses: seq<Analysis>, iso: int -> string)
    ensures Filtered(analyses, "", "", iso) == analyses
  {
    FilterAllKept(analyses, (a: Analysis) => Matches(a, "", "", iso));
  }

  /** Narrowing by both filters is narrowing by one and then the other. */
  lemma FiltersCompose(analyses: seq<Analysis>, typeFilter: string, dateFilter: string, iso: int -> string)
    ensures Filtered(analyses, typeFilter, dateFilter, iso)
            == Filtered(Filtered(analyses, typeFilter, "", iso), "", dateFilter, iso)
  {
    FilterTwice(analyses, (a: Analysis) => Matches(a, typeFilter, "", iso), (a: Analysis) => Matches(a, "", dateFilter, iso),
                (a: Analysis) => Matches(a, typeFilter, dateFilter, iso));
  }

  lemma {:induction false} FilterTwice(s: seq<Analysis>, p: Analysis -> bool, q: Analysis -> bool, both: Analysis -> bool)
    requires forall a :: both(a) == (p(a) && q(a))
    ensures Filter(s, both) == Filter(Filter(s, p), q)
  {
    if s != [] {
      FilterTwice(s[1..], p, q, both);
    }
  }

  /** `s.map((a) => a.chartType)`. */
  function ChartTypes(analyses: seq<Analysis>): (types: seq<string>)
    ensures |types| == |analyses|
    ensures forall i :: 0 <= i < |analyses| ==> types[i] == analyses[i].chartType
  {
    seq(|analyses|, i requires 0 <= i < |analyses| => analyses[i].chartType)
  }

  /** `[...new Set(analyses.map((a) => a.chartType))]`. */
  function TypeOptions(analyses: seq<Analysis>): seq<string> {
    Distinct(ChartTypes(analyses))
  }

  /** The type options are the listed chart types, each once, in order of first appearance, and
      choosing one of them always leaves at least one analysis in the table. */
  lemma TypeOptionsProperties(analyses: seq<Analysis>, iso: int -> string)
    ensures IsSubseq(TypeOptions(analyses), ChartTypes(analyses))
    ensures forall i, j :: 0 <= i < j < |TypeOptions(analyses)| ==> TypeOptions(analyses)[i] != TypeOptions(analyses)[j]
    ensures forall t :: t in TypeOptions(analyses) <==> exists i :: 0 <= i < |analyses| && analyses[i].chartType == t
    ensures forall i, j :: 0 <= i < j < |TypeOptions(analyses)| ==>
              FirstIndex(ChartTypes(analyses), TypeOptions(analyses)[i]) < FirstIndex(ChartTypes(analyses), TypeOptions(analyses)[j])
    ensures forall t :: t in TypeOptions(analyses) ==> Filtered(analyses, t, "", iso) != []
  {
    var types := ChartTypes(analyses);
    DistinctProperties(types);
    forall t | t in TypeOptions(analyses) ensures Filtered(analyses, t, "", iso) != [] {
      var i :| 0 <= i < |types| && types[i] == t;
      assert Matches(analyses[i], t, "", iso);
    }
    forall t ensures t in TypeOptions(analyses) <==> exists i :: 0 <= i < |analyses| && analyses[i].chartType == t {
      if exists i :: 0 <= i < |analyses| && analyses[i].chartType == t {
        var i :| 0 <= i < |analyses| && analyses[i].chartType == t;
        assert types[i] == t;
      }
    }
  }

  /** The page state. */
  datatype PanelState = PanelState(analyses: seq<Analysis>, loading: bool, error: string,
                                   typeFilter: string, dateFilter: string)

  const Initial := PanelState([], true, "", "", "")

  /** The listing request's outcome: the records, or a failure with the server's message if it
      sent one. */
  datatype Outcome = Ok(data: seq<Analysis>) | Failed(message: Option<string>)

  function AfterFetch(state: PanelState, outcome: Outcome): (r: PanelState)
    ensures !r.loading && r.typeFilter == state.typeFilter && r.dateFilter == state.dateFilter
    ensures outcome.Ok? ==> r.analyses == outcome.data && r.error == state.error
    ensures outcome.Failed? ==> r.analyses == state.analyses
    ensures outcome.Failed? && Truthy(outcome.message) ==> r.error == outcome.message.value
    ensures outcome.Failed? && !Truthy(outcome.message) ==> r.error == "Failed to load analyses"
  {
    match outcome
    case Ok(data) => state.(analyses := data, loading := false)
    case Failed(message) =>
      state.(error := if Truthy(message) then message.value else "Failed to load analyses", loading := false)
  }

  /** The table area. */
  datatype TableView = Skeleton | ErrorText(text: string) | NoneFound | Rows(rows: seq<Analysis>)

  function Table(state: PanelState, iso: int -> string): (v: TableView)
    ensures state.loading <==> v == Skeleton
    ensures !state.loading && state.error != "" ==> v == ErrorText(state.error)
    ensures v.Rows? ==> v.rows == Filtered(state.analyses, state.typeFilter, state.dateFilter, iso) && v.rows != []
    ensures !state.loading && state.error == "" && Filtered(state.analyses, state.typeFilter, state.dateFilter, iso) != [] ==>
              v == Rows(Filtered(state.analyses, state.typeFilter, state.dateFilter, iso))
    ensures v == NoneFound <==> !state.loading && state.error == ""
                                && Filtered(state.analyses, state.typeFilter, state.dateFilter, iso) == []
  {
    var rows := Filtered(state.analyses, state.typeFilter, state.dateFilter, iso);
    if state.loading then Skeleton
    else if state.error != "" then ErrorText(state.error)
    else if rows == [] then NoneFound
    else Rows(rows)
  }
}
