/** POST /search and its helper `searchProducts`: an aggregation pipeline over the Atlas
    text index, then a filter keeping the hits owned by the caller. The text index itself
    (tokenising, relevance order) is a parameter: a function from the query value to the
    ranked documents it matches, or to the error the database raises. */
module Search {
  import opened Seqs
  import opened Http
  import opened ProductSchema
  import opened ListingRules

  /** The `lim` argument of `searchProducts`: `null` (its default), a number, or any other
      value. */
  datatype LimitArg = LimNull | LimNumber(n: int) | LimOther

  /** The fields the `$search` stage searches. */
  const SearchPaths: seq<string> := ["title", "description", "tags"]

  /** One stage of the aggregation pipeline. */
  datatype Stage =
    | TextSearch(query: Field, paths: seq<string>)   // { $search: { index: 'default', text: { query, path } } }
    | Limit(n: nat)                                  // { $limit: n }

  /** What the database makes of a `$search` query: the matching documents in relevance
      order, or an error carrying its message. */
  datatype IndexAnswer = Ranked(docs: seq<Listing>) | IndexError(message: string)

  /** The text index, as seen by one request. */
  type TextIndex = Field -> IndexAnswer

  /** The pipeline `searchProducts` builds: the text search over the three paths, then a
      `$limit` stage exactly when `lim` is a number greater than 0. */
  function Pipeline(query: Field, lim: LimitArg): (agg: seq<Stage>)
    ensures 1 <= |agg| <= 2 && agg[0] == TextSearch(query, SearchPaths)
    ensures |agg| == 2 <==> lim.LimNumber? && lim.n > 0
    ensures |agg| == 2 ==> agg[1] == Limit(lim.n)
  {
    [TextSearch(query, SearchPaths)] + (if lim.LimNumber? && lim.n > 0 then [Limit(lim.n)] else [])
  }

  /** `agg` as the source builds it: one literal stage, then a conditional `push`. */
  method BuildPipeline(query: Field, lim: LimitArg) returns (agg: seq<Stage>)
    ensures agg == Pipeline(query, lim)
  {
    agg := [TextSearch(query, SearchPaths)];
    if lim.LimNumber? && lim.n > 0 {
      agg := agg + [Limit(lim.n)];
    }
  }

  /** One stage applied to the documents flowing into it. `$search` must open a pipeline and
      does not read its input; `$limit` keeps the first `n` documents and passes an error on. */
  function ApplyStage(input: IndexAnswer, stage: Stage, index: TextIndex): IndexAnswer {
    match stage
    case TextSearch(query, _) => index(query)
    case Limit(n) => if input.Ranked? then Ranked(Take(input.docs, n)) else input
  }

  /** `coll.aggregate(agg).toArray()`: the stages applied in order. */
  function Aggregate(agg: seq<Stage>, input: IndexAnswer, index: TextIndex): IndexAnswer
    decreases |agg|
  {
    if agg == [] then input else Aggregate(agg[1..], ApplyStage(input, agg[0], index), index)
  }

  /** What `searchProducts` resolves to or rejects with. */
  datatype SearchOutcome = Found(results: seq<Listing>) | Failed(message: string)

  const NoProducts := "No products found."

  /** `searchProducts(query, lim)`: the aggregation's documents when there is at least one;
      an empty result is turned into an error, and a database error is passed on. */
  function SearchProducts(index: TextIndex, query: Field, lim: LimitArg): (out: SearchOutcome)
    ensures out.Found? ==> out.results != []
  {
    match Aggregate(Pipeline(query, lim), Ranked([]), index)
    case Ranked(docs) => if |docs| > 0 then Found(docs) else Failed(NoProducts)
    case IndexError(m) => Failed(m)
  }

  /** `searchProducts` finds the index's ranked documents, cut to the first `lim` when `lim`
      is a positive number and left whole otherwise; it fails with "No products found."
      exactly when that list is empty, and with the database's message on a database error. */
  lemma SearchProductsOutcome(index: TextIndex, query: Field, lim: LimitArg)
    ensures var out := SearchProducts(index, query, lim);
      match index(query)
      case IndexError(m) => out == Failed(m)
      case Ranked(docs) =>
        var kept := if lim.LimNumber? && lim.n > 0 then Take(docs, lim.n) else docs;
        && kept <= docs
        && (lim.LimNumber? && lim.n > 0 ==> |kept| <= lim.n)
        && (out == if kept == [] then Failed(NoProducts) else Found(kept))
  {
    var agg := Pipeline(query, lim);
    var first := ApplyStage(Ranked([]), agg[0], index);
    assert first == index(query);
    assert Aggregate(agg, Ranked([]), index) == Aggregate(agg[1..], first, index);
    if |agg| == 2 {
      var rest := agg[1..];
      assert rest[0] == Limit(lim.n) && rest[1..] == [];
      assert Aggregate(rest, first, index) == ApplyStage(first, rest[0], index);
    } else {
      assert agg[1..] == [];
    }
  }

  /** The caller's filter `product.userEmail === userEmail`: a strict equality, so only a
      string email can match. */
  function OwnedBy(userEmail: Field): Listing -> bool {
    (p: Listing) => userEmail.Text? && p.userEmail == userEmail.s
  }

  /** The route's logic after its opening lines (both guards, the owner filter and the
      error mapping), for the query value `q` and the body's `userEmail`. */
  function SearchRoute(q: Field, userEmail: Field, index: TextIndex): (r: Response)
    ensures r.status in {200, 400, 404, 500}
    ensures r.status == 200 ==>
      && r.body.SearchHits? && r.body.results != []
      && forall i :: 0 <= i < |r.body.results| ==> userEmail.Text? && r.body.results[i].userEmail == userEmail.s
  {
    if !Truthy(q) then Response(400, SearchMessage("Query parameter is required"))
    else if !Truthy(userEmail) then Response(400, SearchMessage("User email is required"))
    else
      match SearchProducts(index, q, LimNull)
      case Found(results) =>
        var filtered := Keep(results, OwnedBy(userEmail));
        if |filtered| == 0 then Response(404, SearchMessage("No products found for this user"))
        else Response(200, SearchHits(filtered))
      case Failed(m) =>
        if m == NoProducts then Response(404, SearchMessage(m)) else Response(500, PlainText("Server error"))
  }

  /** A falsy query or a falsy email is refused with 400 whatever the index holds, so the
      guards are decided before the index is consulted; the query guard comes first. */
  lemma GuardsPrecedeIndex(q: Field, userEmail: Field, index: TextIndex, other: TextIndex)
    requires !Truthy(q) || !Truthy(userEmail)
    ensures SearchRoute(q, userEmail, index) == SearchRoute(q, userEmail, other)
    ensures SearchRoute(q, userEmail, index).status == 400
    ensures SearchRoute(q, userEmail, index).body ==
      SearchMessage(if !Truthy(q) then "Query parameter is required" else "User email is required")
  {
  }

  /** With both guards passed, an index error gives 404 when it is the empty-result error
      and 500 otherwise. */
  lemma SearchIndexError(q: Field, userEmail: Field, index: TextIndex)
    requires Truthy(q) && Truthy(userEmail) && index(q).IndexError?
    ensures SearchRoute(q, userEmail, index) ==
      if index(q).message == NoProducts then Response(404, SearchMessage(NoProducts))
      else Response(500, PlainText("Server error"))
  {
    SearchProductsOutcome(index, q, LimNull);
  }

  /** With both guards passed and the index answering `docs`: no hits give 404
      "No products found."; hits none of which the caller owns give 404 "No products found
      for this user"; otherwise 200 with the filter of the hits by owner. */
  lemma SearchOutcomes(q: Field, userEmail: Field, index: TextIndex)
    requires Truthy(q) && Truthy(userEmail) && index(q).Ranked?
    ensures var resp, docs := SearchRoute(q, userEmail, index), index(q).docs;
      && (docs == [] ==> resp == Response(404, SearchMessage(NoProducts)))
      && (docs != [] && (forall i :: 0 <= i < |docs| ==> !OwnedBy(userEmail)(docs[i])) ==>
            resp == Response(404, SearchMessage("No products found for this user")))
      && (resp.status == 200 <==> exists i :: 0 <= i < |docs| && OwnedBy(userEmail)(docs[i]))
      && (resp.status == 200 ==> resp == Response(200, SearchHits(Keep(docs, OwnedBy(userEmail)))))
  {
    SearchProductsOutcome(index, q, LimNull);
    var docs := index(q).docs;
    var filtered := Keep(docs, OwnedBy(userEmail));
    assert docs != [] ==>
      (SearchRoute(q, userEmail, index) ==
         if filtered == [] then Response(404, SearchMessage("No products found for this user"))
         else Response(200, SearchHits(filtered)));
    if exists i :: 0 <= i < |docs| && OwnedBy(userEmail)(docs[i]) {
      var i :| 0 <= i < |docs| && OwnedBy(userEmail)(docs[i]);
      assert docs[i] in filtered;
    }
  }

  /** A 200 from the search returns exactly the caller's hits: each hit the caller owns,
      as often as the index gave it, in the index's order, and nothing else. */
  lemma SearchOwnHits(q: Field, userEmail: Field, index: TextIndex)
    requires Truthy(q) && Truthy(userEmail) && index(q).Ranked?
    ensures var resp, docs := SearchRoute(q, userEmail, index), index(q).docs;
      resp.status == 200 ==>
        && userEmail.Text? && resp.body.SearchHits?
        && Sublist(resp.body.results, docs)
        && (forall x :: multiset(resp.body.results)[x] ==
              if x.userEmail == userEmail.s then multiset(docs)[x] else 0)
        && (forall i :: 0 <= i < |resp.body.results| ==>
              resp.body.results[i] in docs && resp.body.results[i].userEmail == userEmail.s)
        && (forall i :: 0 <= i < |docs| && docs[i].userEmail == userEmail.s ==>
              docs[i] in resp.body.results)
  {
    SearchOutcomes(q, userEmail, index);
    var docs := index(q).docs;
    KeepCounts(docs, OwnedBy(userEmail));
    if SearchRoute(q, userEmail, index).status == 200 {
      var i :| 0 <= i < |docs| && OwnedBy(userEmail)(docs[i]);
      assert userEmail.Text?;
    }
  }

  /** When the index answers with stored records only, every hit the route returns is a
      stored record owned by the caller. */
  lemma SearchHitsAreStoredAndOwned(store: Store, q: Field, userEmail: Field, index: TextIndex)
    requires index(q).Ranked? ==> forall i :: 0 <= i < |index(q).docs| ==> index(q).docs[i] in store.Values
    ensures var resp := SearchRoute(q, userEmail, index);
      resp.status == 200 ==>
        && userEmail.Text?
        && forall i :: 0 <= i < |resp.body.results| ==>
             resp.body.results[i] in store.Values && resp.body.results[i].userEmail == userEmail.s
  {
    if Truthy(q) && Truthy(userEmail) {
      if index(q).Ranked? {
        SearchOwnHits(q, userEmail, index);
      } else {
        SearchIndexError(q, userEmail, index);
      }
    }
  }

  // ---------------------------------------------------------------------------------
  // The route as written

  /** How a handler ends: with a reply, or by throwing before it sends one. An exception in
      the async handler rejects its promise, which Express 4 does not turn into a reply. */
  datatype RouteResult = Replied(resp: Response) | Threw(error: string)

  /** The route as written (backend/Routes/Products.js:594-629): its first statement after
      reading `q` and `userEmail` logs the undeclared name `seearchQuery`, which throws a
      ReferenceError before either guard runs. */
  function SearchRouteAsWritten(q: Field, userEmail: Field, index: TextIndex): RouteResult {
    Threw("ReferenceError: seearchQuery is not defined")
  }

  /** As written, no request to POST /search gets a reply, not even the 400s of the guards:
      the route never behaves as its intended logic `SearchRoute` does. */
  lemma SearchAsWrittenNeverReplies(q: Field, userEmail: Field, index: TextIndex)
    ensures SearchRouteAsWritten(q, userEmail, index).Threw?
    ensures SearchRouteAsWritten(q, userEmail, index) != Replied(SearchRoute(q, userEmail, index))
  {
  }
}
