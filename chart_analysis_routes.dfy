/** The chart-analysis routes over the analysis table: every POST inserts (there is no
    de-duplication and no ownership check anywhere), the two listings are newest-first
    queries, and DELETE removes by id. */
module ChartAnalysisRoutes {
  import opened Common
  import opened Records

  datatype Reply = Reply(status: nat, message: string)

  /** The posted JSON body; `summary` is read but has no place in the schema. */
  datatype AnalysisBody = AnalysisBody(
    userEmail: Option<string>,
    uploadId: Option<string>,
    chartType: Option<string>,
    xAxis: Option<string>,
    yAxis: Option<string>,
    summary: Option<string>,
    chartImageBase64: Option<string>)

  /** The schema's `required: true` string paths: absent or empty fails validation. */
  predicate SchemaValid(body: AnalysisBody) {
    && Truthy(body.userEmail) && Truthy(body.uploadId) && Truthy(body.chartType)
    && Truthy(body.xAxis) && Truthy(body.yAxis) && Truthy(body.chartImageBase64)
  }

  function ByEmail(analyses: seq<Analysis>, email: string): seq<Analysis> {
    Filter(analyses, (a: Analysis) => a.userEmail == email)
  }

  function WithoutId(analyses: seq<Analysis>, id: nat): seq<Analysis> {
    Filter(analyses, (a: Analysis) => a.id != id)
  }

  function Newest(): Analysis -> int {
    (a: Analysis) => a.createdAt
  }

  /** `find(query).sort({ createdAt: -1 })` over the records `matching` selected. */
  function NewestFirst(matching: seq<Analysis>): (r: seq<Analysis>)
    ensures multiset(r) == multiset(matching)
    ensures forall a :: a in r <==> a in matching
    ensures SortedDesc(r, Newest())
  {
    SortDescSorted(matching, Newest());
    SortDesc(matching, Newest())
  }

  /** GET `/user/:email`: exactly that email's records, newest first. */
  function ListByEmail(analyses: seq<Analysis>, email: string): (r: seq<Analysis>)
    ensures forall a :: a in r <==> a in analyses && a.userEmail == email
    ensures multiset(r) == multiset(ByEmail(analyses, email))
    ensures SortedDesc(r, Newest())
  {
    NewestFirst(ByEmail(analyses, email))
  }

  /** GET `/analyses`: every record, newest first. */
  function ListAll(analyses: seq<Analysis>): (r: seq<Analysis>)
    ensures multiset(r) == multiset(analyses)
    ensures SortedDesc(r, Newest())
  {
    NewestFirst(analyses)
  }

  /** `ChartAnalysis.findById(id)`: the record with that id, if any. */
  function FindById(analyses: seq<Analysis>, id: nat): (r: Option<Analysis>)
    ensures r.Some? ==> r.value in analyses && r.value.id == id
    ensures r.None? <==> forall i :: 0 <= i < |analyses| ==> analyses[i].id != id
  {
    FindFirst(analyses, (a: Analysis) => a.id == id)
  }

  class AnalysisStore {
    var analyses: seq<Analysis>
    var nextId: nat

    /** Every record has its own id, below the next one handed out. */
    ghost predicate Valid()
      reads this
    {
      && (forall i :: 0 <= i < |analyses| ==> analyses[i].id < nextId)
      && IdsDistinct(analyses)
    }

    constructor ()
      ensures Valid() && analyses == []
    {
      analyses := [];
      nextId := 0;
    }

    /** POST `/`: a valid body always adds one record, even when an identical one exists;
        an invalid one, or a save the store rejects (`saveOk` false), is a 500 and stores
        nothing. */
    method Post(body: AnalysisBody, now: int, saveOk: bool) returns (reply: Reply)
      requires Valid()
      modifies this
      ensures Valid()
      ensures !(SchemaValid(body) && saveOk) ==> reply == Reply(500, "Failed to save chart analysis") && analyses == old(analyses)
      ensures SchemaValid(body) && saveOk ==>
                && reply == Reply(201, "Chart analysis saved successfully")
                && analyses == old(analyses) + [Analysis(old(nextId), body.userEmail.value, body.uploadId.value,
                                                         body.chartType.value, body.xAxis.value, body.yAxis.value,
                                                         body.chartImageBase64.value, now)]
    {
      if !SchemaValid(body) || !saveOk {
        return Reply(500, "Failed to save chart analysis");
      }
      analyses := analyses + [Analysis(nextId, body.userEmail.value, body.uploadId.value, body.chartType.value,
                                       body.xAxis.value, body.yAxis.value, body.chartImageBase64.value, now)];
      nextId := nextId + 1;
      reply := Reply(201, "Chart analysis saved successfully");
    }

    /** DELETE `/:id`: 404 when no record has the id, otherwise exactly that record goes. */
    method Delete(id: nat) returns (reply: Reply)
      requires Valid()
      modifies this`analyses
      ensures Valid()
      ensures FindById(old(analyses), id).None? ==> reply == Reply(404, "Analysis not found") && analyses == old(analyses)
      ensures FindById(old(analyses), id).Some? ==>
                && reply == Reply(200, "Deleted successfully")
                && analyses == WithoutId(old(analyses), id)
                && |analyses| == |old(analyses)| - 1
    {
      if FindById(analyses, id).None? {
        return Reply(404, "Analysis not found");
      }
      WithoutIdKeepsDistinct(analyses, id);
      WithoutPresentId(analyses, id);
      analyses := WithoutId(analyses, id);
      reply := Reply(200, "Deleted successfully");
    }
  }

  predicate IdsDistinct(analyses: seq<Analysis>) {
    forall i, j :: 0 <= i < j < |analyses| ==> analyses[i].id != analyses[j].id
  }

  /** Deleting by id keeps the remaining ids distinct. */
  lemma {:induction false} WithoutIdKeepsDistinct(analyses: seq<Analysis>, id: nat)
    requires IdsDistinct(analyses)
    ensures IdsDistinct(WithoutId(analyses, id))
  {
    if analyses != [] {
      var rest := analyses[1..];
      assert IdsDistinct(rest) by {
        forall i, j | 0 <= i < j < |rest| ensures rest[i].id != rest[j].id {
          assert rest[i] == analyses[i + 1] && rest[j] == analyses[j + 1];
        }
      }
      WithoutIdKeepsDistinct(rest, id);
      var tail := WithoutId(rest, id);
      if analyses[0].id != id {
        assert WithoutId(analyses, id) == [analyses[0]] + tail;
        forall j | 0 <= j < |tail| ensures analyses[0].id != tail[j].id {
          var k :| 0 <= k < |rest| && rest[k] == tail[j];
          assert analyses[k + 1] == tail[j];
        }
      }
    }
  }

  /** With distinct ids, deleting an id that is present removes exactly one record. */
  lemma {:induction false} WithoutPresentId(analyses: seq<Analysis>, id: nat)
    requires IdsDistinct(analyses)
    requires FindById(analyses, id).Some?
    ensures |WithoutId(analyses, id)| == |analyses| - 1
  {
    var rest := analyses[1..];
    if analyses[0].id == id {
      forall i | 0 <= i < |rest| ensures rest[i].id != id {
        assert rest[i] == analyses[i + 1];
      }
      FilterAllKept(rest, (a: Analysis) => a.id != id);
    } else {
      assert IdsDistinct(rest) by {
        forall i, j | 0 <= i < j < |rest| ensures rest[i].id != rest[j].id {
          assert rest[i] == analyses[i + 1] && rest[j] == analyses[j + 1];
        }
      }
      var i :| 0 <= i < |analyses| && analyses[i].id == id;
      assert rest[i - 1].id == id;
      WithoutPresentId(rest, id);
    }
  }

  /** Deleting by id keeps every other record, in order, and leaves none with that id. */
  lemma DeleteKeepsOthers(analyses: seq<Analysis>, id: nat)
    ensures IsSubseq(WithoutId(analyses, id), analyses)
    ensures forall a :: a in WithoutId(analyses, id) <==> a in analyses && a.id != id
    ensures FindById(WithoutId(analyses, id), id).None?
  {
    FilterIsSubseq(analyses, (a: Analysis) => a.id != id);
  }

  /** The per-email listing is the full listing restricted to that email. */
  lemma ListByEmailWithinAll(analyses: seq<Analysis>, email: string)
    ensures forall a :: a in ListByEmail(analyses, email) <==> a in ListAll(analyses) && a.userEmail == email
  {
    forall a ensures a in ListAll(analyses) <==> a in analyses {
      assert a in multiset(ListAll(analyses)) <==> a in multiset(analyses);
    }
  }
}
