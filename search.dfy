/**
 * The result projection of the `/campaigns` handler in index.js: the hit
 * list is mapped to each hit's `_source`, and the server-reported total is
 * read out, with optional chaining and the `|| []` / `|| 0` defaults.
 */
module Search {
  import opened Wrappers
  import Bulk

  /** One hit; `_source` is the stored row when present. */
  datatype Hit = Hit(source: Option<Bulk.Row>)

  /** `hits.total`: the server-reported number of matches. */
  datatype TotalHits = TotalHits(value: Option<int>)

  /** `hits`: the hit list (entries may be null) and the total. */
  datatype HitsSection = HitsSection(hits: Option<seq<Option<Hit>>>, total: Option<TotalHits>)

  /** A search response; `hits` may be missing. */
  datatype SearchResponse = SearchResponse(hits: Option<HitsSection>)

  /** `hit?._source` */
  function SourceOf(hit: Option<Hit>): Option<Bulk.Row> {
    if hit.Some? then hit.value.source else None
  }

  /** `hits.map((hit) => hit?._source)` */
  function ProjectHits(hits: seq<Option<Hit>>): (campaigns: seq<Option<Bulk.Row>>)
    ensures |campaigns| == |hits|
    ensures forall i :: 0 <= i < |hits| ==> campaigns[i] == SourceOf(hits[i])
    decreases |hits|
  {
    if hits == [] then [] else [SourceOf(hits[0])] + ProjectHits(hits[1..])
  }

  /** `searchResponse?.hits?.hits?.map((hit) => hit?._source) || []` */
  function Campaigns(response: SearchResponse): (campaigns: seq<Option<Bulk.Row>>)
    ensures response.hits.None? || response.hits.value.hits.None? ==> campaigns == []
    ensures response.hits.Some? && response.hits.value.hits.Some? ==>
              var hits := response.hits.value.hits.value;
              |campaigns| == |hits| &&
              forall i :: 0 <= i < |hits| ==> campaigns[i] == SourceOf(hits[i])
  {
    match response.hits
    case None => []
    case Some(section) =>
      match section.hits
      case None => []
      case Some(hits) => ProjectHits(hits)
  }

  /** `searchResponse?.hits?.total?.value || 0` (a number is falsy only when it is 0). */
  function Total(response: SearchResponse): (total: int)
    ensures total != 0 ==>
              response.hits.Some? && response.hits.value.total.Some? &&
              response.hits.value.total.value.value == Some(total)
    ensures response.hits.Some? && response.hits.value.total.Some? &&
            response.hits.value.total.value.value.Some? ==>
              total == response.hits.value.total.value.value.value
  {
    if response.hits.Some? && response.hits.value.total.Some? &&
       response.hits.value.total.value.value.Some? &&
       response.hits.value.total.value.value.value != 0
    then response.hits.value.total.value.value.value
    else 0
  }

  /** Projection commutes with concatenation, so campaigns come back in hit order. */
  lemma {:induction false} ProjectHitsAppend(a: seq<Option<Hit>>, b: seq<Option<Hit>>)
    ensures ProjectHits(a + b) == ProjectHits(a) + ProjectHits(b)
    decreases |a|
  {
    if a == [] {
      assert a + b == b;
    } else {
      assert (a + b)[1..] == a[1..] + b;
      ProjectHitsAppend(a[1..], b);
    }
  }
}
