/**
 * The filter-predicate builder of the `/campaigns` read path
 * (`mustQueriesBuilder` and the `dslQuery` selection in index.js).
 *
 * The request body is a JSON object; here it is a map from property name to
 * string value. JavaScript truthiness of a property is modelled as "the key is
 * present and its value is not the empty string".
 */
module CampaignQuery {

  /** The JSON request body: property name to value. */
  type Body = map<string, string>

  /** The campaign fields a caller may filter on, in the order the builder tests them. */
  const Fields: seq<string> := [
    "Campaign_ID", "Target_Audience", "Campaign_Goal", "Duration",
    "Channel_Used", "Conversion_Rate", "Acquisition_Cost", "ROI",
    "Location", "Language", "Clicks", "Impressions",
    "Engagement_Score", "Customer_Segment", "Date", "Company"
  ]

  /** `{ match: { field: value } }`: a clause on one field and one value. */
  datatype Clause = Match(field: string, value: string)

  /** `{ query: { match_all: {} } }` or `{ query: { bool: { must: [...] } } }`. */
  datatype DslQuery = MatchAll | BoolMust(must: seq<Clause>)

  /** JavaScript's `if (body.f)` on a string-valued body. */
  predicate Truthy(body: Body, f: string) {
    f in body && body[f] != ""
  }

  /** The clause (if any) that the test of field `f` pushes. */
  function ClauseFor(body: Body, f: string): seq<Clause> {
    if Truthy(body, f) then [Match(f, body[f])] else []
  }

  /** The clauses produced by testing the fields `fs` in order. */
  function Clauses(body: Body, fs: seq<string>): seq<Clause>
    decreases |fs|
  {
    if fs == [] then []
    else Clauses(body, fs[..|fs| - 1]) + ClauseFor(body, fs[|fs| - 1])
  }

  /** What `mustQueriesBuilder` returns for a request body. */
  function MustQueries(body: Body): seq<Clause> {
    Clauses(body, Fields)
  }

  /** How many clauses of `cs` are on field `f`. */
  function CountField(cs: seq<Clause>, f: string): nat
    decreases |cs|
  {
    if cs == [] then 0
    else CountField(cs[..|cs| - 1], f) + (if cs[|cs| - 1].field == f then 1 else 0)
  }

  /** No field name occurs twice. */
  predicate NoDup(fs: seq<string>) {
    forall i, j :: 0 <= i < j < |fs| ==> fs[i] != fs[j]
  }

  /** Dropping the last field keeps the rest distinct, and the dropped field does not occur among them. */
  lemma NoDupInit(fs: seq<string>)
    requires NoDup(fs) && fs != []
    ensures NoDup(fs[..|fs| - 1]) && fs[|fs| - 1] !in fs[..|fs| - 1]
  {
    var init := fs[..|fs| - 1];
    forall i, j | 0 <= i < j < |init| ensures init[i] != init[j] {
      assert init[i] == fs[i] && init[j] == fs[j];
    }
    forall i | 0 <= i < |init| ensures init[i] != fs[|fs| - 1] {
      assert init[i] == fs[i];
    }
  }

  /** Position of the first occurrence of `f` in `fs`. */
  function IndexOf(fs: seq<string>, f: string): (k: nat)
    requires f in fs
    ensures k < |fs| && fs[k] == f
    ensures forall i :: 0 <= i < k ==> fs[i] != f
  {
    if fs[0] == f then 0 else 1 + IndexOf(fs[1..], f)
  }

  /**
   * mustQueriesBuilder: start from an empty list and, for each declared field
   * in turn, push one `match` clause when the body's value for it is truthy.
   */
  method MustQueriesBuilder(body: Body) returns (mustQueries: seq<Clause>)
    ensures mustQueries == MustQueries(body)
    ensures |mustQueries| <= |Fields|
    ensures forall c :: c in mustQueries ==>
              c.field in Fields && Truthy(body, c.field) && c.value == body[c.field]
  {
    mustQueries := [];
    for i := 0 to |Fields|
      invariant mustQueries == Clauses(body, Fields[..i])
    {
      var f := Fields[i];
      if Truthy(body, f) {
        mustQueries := mustQueries + [Match(f, body[f])];
      }
      assert Fields[..i + 1][..i] == Fields[..i];
    }
    assert Fields[..|Fields|] == Fields;
    ClausesSound(body, Fields);
  }

  /** The `dslQuery` selection: match-all for no clauses, otherwise a `bool.must` of exactly those clauses. */
  function SelectQuery(mustQueries: seq<Clause>): (q: DslQuery)
    ensures q.MatchAll? <==> mustQueries == []
    ensures q.BoolMust? ==> q.must == mustQueries
  {
    if |mustQueries| > 0 then BoolMust(mustQueries) else MatchAll
  }

  /** The query the `/campaigns` handler sends for a request body. */
  function BuildQuery(body: Body): (q: DslQuery)
    ensures q.MatchAll? <==> MustQueries(body) == []
    ensures q.BoolMust? ==> q.must == MustQueries(body)
  {
    SelectQuery(MustQueries(body))
  }

  // ---------------------------------------------------------------------------
  // Properties of the builder

  /** Every clause is on one of the tested fields, that field is truthy, and the value is the supplied one. */
  lemma {:induction false} ClausesSound(body: Body, fs: seq<string>)
    ensures |Clauses(body, fs)| <= |fs|
    ensures forall c :: c in Clauses(body, fs) ==>
              c.field in fs && Truthy(body, c.field) && c.value == body[c.field]
  {
    if fs != [] {
      var init := fs[..|fs| - 1];
      ClausesSound(body, init);
      assert forall f :: f in init ==> f in fs;
    }
  }

  lemma {:induction false} CountFieldAppend(a: seq<Clause>, b: seq<Clause>, f: string)
    ensures CountField(a + b, f) == CountField(a, f) + CountField(b, f)
    decreases |b|
  {
    if b == [] {
      assert a + b == a;
    } else {
      var b' := b[..|b| - 1];
      assert (a + b)[..|a + b| - 1] == a + b';
      CountFieldAppend(a, b', f);
    }
  }

  /** For distinct fields: exactly one clause per truthy field, none for any other name. */
  lemma {:induction false} ClauseCount(body: Body, fs: seq<string>, f: string)
    requires NoDup(fs)
    ensures CountField(Clauses(body, fs), f) == if f in fs && Truthy(body, f) then 1 else 0
    decreases |fs|
  {
    if fs != [] {
      var init, last := fs[..|fs| - 1], fs[|fs| - 1];
      NoDupInit(fs);
      ClauseCount(body, init, f);
      CountFieldAppend(Clauses(body, init), ClauseFor(body, last), f);
      assert fs == init + [last];
      if Truthy(body, last) {
        assert CountField(ClauseFor(body, last), f) == CountField([], f) + (if last == f then 1 else 0);
      }
    }
  }

  lemma {:induction false} IndexOfPrefix(fs: seq<string>, x: string, f: string)
    requires f in fs
    ensures f in fs + [x] && IndexOf(fs + [x], f) == IndexOf(fs, f)
    decreases |fs|
  {
    if fs[0] != f {
      assert (fs + [x])[1..] == fs[1..] + [x];
      IndexOfPrefix(fs[1..], x, f);
    }
  }

  lemma {:induction false} IndexOfLast(fs: seq<string>, x: string)
    requires x !in fs
    ensures x in fs + [x] && IndexOf(fs + [x], x) == |fs|
    decreases |fs|
  {
    if fs != [] {
      assert (fs + [x])[1..] == fs[1..] + [x];
      IndexOfLast(fs[1..], x);
    }
  }

  /** For distinct fields: clauses appear in the order their fields are declared. */
  lemma {:induction false} ClausesOrdered(body: Body, fs: seq<string>)
    requires NoDup(fs)
    ensures forall c :: c in Clauses(body, fs) ==> c.field in fs
    ensures forall i, j :: 0 <= i < j < |Clauses(body, fs)| ==>
              IndexOf(fs, Clauses(body, fs)[i].field) < IndexOf(fs, Clauses(body, fs)[j].field)
    decreases |fs|
  {
    ClausesSound(body, fs);
    if fs != [] {
      var init, last := fs[..|fs| - 1], fs[|fs| - 1];
      assert fs == init + [last];
      NoDupInit(fs);
      ClausesOrdered(body, init);
      ClausesSound(body, init);
      var pre := Clauses(body, init);
      var cs := Clauses(body, fs);
      forall i | 0 <= i < |pre|
        ensures pre[i].field in init && IndexOf(fs, pre[i].field) == IndexOf(init, pre[i].field)
        ensures IndexOf(init, pre[i].field) < |init|
      {
        assert pre[i] in pre;
        IndexOfPrefix(init, last, pre[i].field);
      }
      forall i, j | 0 <= i < j < |cs|
        ensures IndexOf(fs, cs[i].field) < IndexOf(fs, cs[j].field)
      {
        if j < |pre| {
          assert cs[i] == pre[i] && cs[j] == pre[j];
        } else {
          assert cs[j] == Match(last, body[last]);
          assert cs[i] == pre[i];
          IndexOfLast(init, last);
        }
      }
    }
  }

  /** The sixteen declared fields are distinct. */
  lemma FieldsDistinct()
    ensures NoDup(Fields)
  {
  }

  /** One clause per truthy declared field; none for an absent, empty or undeclared one. */
  lemma OneClausePerTruthyField(body: Body, f: string)
    ensures CountField(MustQueries(body), f) == if f in Fields && Truthy(body, f) then 1 else 0
  {
    FieldsDistinct();
    ClauseCount(body, Fields, f);
  }

  /** The clauses follow the declared field order, so there are at most sixteen. */
  lemma MustQueriesInFieldOrder(body: Body)
    ensures |MustQueries(body)| <= 16
    ensures forall i, j :: 0 <= i < j < |MustQueries(body)| ==>
              MustQueries(body)[i].field in Fields && MustQueries(body)[j].field in Fields &&
              IndexOf(Fields, MustQueries(body)[i].field) < IndexOf(Fields, MustQueries(body)[j].field)
  {
    FieldsDistinct();
    ClausesSound(body, Fields);
    ClausesOrdered(body, Fields);
    forall i | 0 <= i < |MustQueries(body)| ensures MustQueries(body)[i].field in Fields {
      assert MustQueries(body)[i] in MustQueries(body);
    }
  }

  lemma {:induction false} ClausesEmpty(body: Body, fs: seq<string>)
    ensures Clauses(body, fs) == [] <==> forall f :: f in fs ==> !Truthy(body, f)
    decreases |fs|
  {
    if fs != [] {
      var init, last := fs[..|fs| - 1], fs[|fs| - 1];
      assert fs == init + [last];
      ClausesEmpty(body, init);
    }
  }

  /** The handler sends match-all exactly when no declared field is truthy; otherwise a `bool.must` of every clause. */
  lemma MatchAllIffNoFilter(body: Body)
    ensures BuildQuery(body) == MatchAll <==> forall f :: f in Fields ==> !Truthy(body, f)
    ensures BuildQuery(body).BoolMust? ==>
              BuildQuery(body).must == MustQueries(body) && |BuildQuery(body).must| > 0
  {
    ClausesEmpty(body, Fields);
  }

  /** A body with only `Location = "US"` yields a one-clause `bool.must`, not match-all. */
  lemma LocationOnly(body: Body)
    requires body == map["Location" := "US"]
    ensures BuildQuery(body) == BoolMust([Match("Location", "US")])
  {
    var k := 8;
    assert Fields[k] == "Location";
    ClausesEmpty(body, Fields[..k]);
    assert Clauses(body, Fields[..k]) == [] by {
      forall f | f in Fields[..k] ensures !Truthy(body, f) { }
    }
    assert Fields[..k + 1][..k] == Fields[..k];
    assert Clauses(body, Fields[..k + 1]) == [Match("Location", "US")];
    LaterFieldsAdd(body, Fields, k + 1);
    assert Fields[..16] == Fields;
  }

  /** From position `k` on, no field of `fs` is truthy, so the clauses of the whole list are those of its first `k` fields. */
  lemma {:induction false} LaterFieldsAdd(body: Body, fs: seq<string>, k: nat)
    requires k <= |fs|
    requires forall i :: k <= i < |fs| ==> !Truthy(body, fs[i])
    ensures Clauses(body, fs) == Clauses(body, fs[..k])
    decreases |fs|
  {
    if |fs| > k {
      var init := fs[..|fs| - 1];
      assert init[..k] == fs[..k];
      LaterFieldsAdd(body, init, k);
    } else {
      assert fs[..k] == fs;
    }
  }
}
