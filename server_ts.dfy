/** The two data routes of server.ts: `GET /api/medicines` and `GET /api/medicines/search`.
    Unlike server.js, its search route builds the `$or` filter whatever the query is, and it
    has no `/search` route. */
module ServerTs {
  import opened QueryParams
  import opened Matching
  import opened Store
  import opened Envelope
  import ServerJs

  /** `GET /api/medicines?page=…`: every document, paginated. */
  function ListMedicines(store: seq<Medicine>, page: Option<string>): (r: Response)
    ensures r.InternalError? <==> CoercePage(page) < 1
    ensures r.Ok? ==> r.body.currentPage == CoercePage(page)
    ensures r.Ok? ==> r.body.totalItems == |store| && r.body.totalPages == TotalPages(|store|)
    ensures r.Ok? ==> r.body.medicines == Window(store, (CoercePage(page) - 1) * ItemsPerPage, ItemsPerPage)
  {
    FindAll(store);
    Respond(store, All, CoercePage(page))
  }

  /** `GET /api/medicines/search?query=…&page=…`: always the name-or-brand filter over `query`,
      paginated over the filtered sequence. */
  function SearchMedicines(store: seq<Medicine>, query: string, page: Option<string>): (r: Response)
    requires IsLiteralPattern(query)
    ensures r.InternalError? <==> CoercePage(page) < 1
    ensures r.Ok? ==> r.body.currentPage == CoercePage(page)
    ensures r.Ok? ==> r.body.totalItems == |Find(store, NameOrBrand(query))|
    ensures r.Ok? ==> r.body.totalPages == TotalPages(r.body.totalItems)
    ensures r.Ok? ==>
              r.body.medicines == Window(Find(store, NameOrBrand(query)), (CoercePage(page) - 1) * ItemsPerPage, ItemsPerPage)
    ensures r.Ok? ==> |r.body.medicines| <= Min(ItemsPerPage, r.body.totalItems)
  {
    Respond(store, NameOrBrand(query), CoercePage(page))
  }

  /** The list route of server.ts answers exactly as the one of server.js. */
  lemma ListAgreesWithJs(store: seq<Medicine>, page: Option<string>)
    ensures ListMedicines(store, page) == ServerJs.ListMedicines(store, page)
  {
  }

  /** With `query=""` the pattern matches every name, so the search answers as the list does,
      although no shortcut for the empty query exists. */
  lemma EmptyQueryIsList(store: seq<Medicine>, page: Option<string>)
    ensures SearchMedicines(store, "", page) == ListMedicines(store, page)
  {
    EmptyPatternFindsAll(store);
  }

  /** For every query the model covers, present or empty, the search route of server.ts answers
      as the one of server.js: the missing shortcut changes nothing. */
  lemma SearchAgreesWithJs(store: seq<Medicine>, query: string, page: Option<string>)
    requires IsLiteralPattern(query)
    ensures SearchMedicines(store, query, page) == ServerJs.SearchMedicines(store, Some(query), page)
  {
    if query == "" {
      EmptyPatternFindsAll(store);
      FindAll(store);
    }
  }

  /** A record is in the filtered sequence iff its name or its brand contains the query, letter case ignored. */
  lemma SearchSelectsNameOrBrand(store: seq<Medicine>, query: string, m: Medicine)
    requires IsLiteralPattern(query)
    requires m in store
    ensures m in Find(store, NameOrBrand(query)) <==>
              ContainsIgnoringCase(m.name, query) || ContainsIgnoringCase(m.brand, query)
  {
    FindMembers(store, NameOrBrand(query), m);
    RegexMatchesIff(m.name, query);
    RegexMatchesIff(m.brand, query);
  }
}
