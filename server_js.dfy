/** The three data routes of server.js: `GET /api/medicines`, `GET /search` and
    `GET /api/medicines/search`. The collection is the snapshot both reads of a request see. */
module ServerJs {
  import opened QueryParams
  import opened Matching
  import opened Store
  import opened Envelope

  /** `GET /api/medicines?page=…`: every document, paginated. */
  function ListMedicines(store: seq<Medicine>, page: Option<string>): (r: Response)
    ensures r.InternalError? <==> CoercePage(page) < 1
    ensures r.Ok? ==> r.body.currentPage == CoercePage(page)
    ensures r.Ok? ==> r.body.totalItems == |store| && r.body.totalPages == TotalPages(|store|)
    ensures r.Ok? ==> r.body.medicines == Window(store, (CoercePage(page) - 1) * ItemsPerPage, ItemsPerPage)
  {
    FindAll(store);
    Respond(store, All, CoercePage(page))
  }

  /** The filter of `/search` and `/api/medicines/search`: `term ? { $or: … } : {}`, where an
      absent or empty term is falsy. */
  function SearchFilter(term: Option<string>): (f: Filter)
    ensures f.All? <==> term.None? || term.value == ""
    ensures f.NameOrBrand? ==> term == Some(f.pattern)
  {
    if term.None? || term.value == "" then All else NameOrBrand(term.value)
  }

  /** The model's condition on a search term: it holds no regular-expression metacharacter. */
  predicate SupportedTerm(term: Option<string>)
  {
    term.Some? ==> IsLiteralPattern(term.value)
  }

  /** `GET /api/medicines/search?query=…&page=…`: the documents whose name or brand contains
      the query, letter case ignored, paginated over the filtered sequence. */
  function SearchMedicines(store: seq<Medicine>, query: Option<string>, page: Option<string>): (r: Response)
    requires SupportedTerm(query)
    ensures r.InternalError? <==> CoercePage(page) < 1
    ensures r.Ok? ==> r.body.currentPage == CoercePage(page)
    ensures r.Ok? ==> r.body.totalItems == |Find(store, SearchFilter(query))| <= |store|
    ensures r.Ok? ==> r.body.totalPages == TotalPages(r.body.totalItems)
    ensures r.Ok? ==>
              r.body.medicines == Window(Find(store, SearchFilter(query)), (CoercePage(page) - 1) * ItemsPerPage, ItemsPerPage)
    ensures r.Ok? ==> |r.body.medicines| <= Min(ItemsPerPage, r.body.totalItems)
    ensures r.Ok? ==> forall m :: m in r.body.medicines ==> m in store && Selects(SearchFilter(query), m)
  {
    FindMembersAll(store, SearchFilter(query));
    Respond(store, SearchFilter(query), CoercePage(page))
  }

  /** `GET /search?medicine=…`: the "Medicine Name" of the first documents (at most 20) that the
      filter selects, in store order. */
  function SearchNames(store: seq<Medicine>, medicine: Option<string>): (names: seq<string>)
    requires SupportedTerm(medicine)
    ensures |names| == Min(20, |Find(store, SearchFilter(medicine))|)
    ensures forall i :: 0 <= i < |names| ==> names[i] == Find(store, SearchFilter(medicine))[i].name
  {
    var found := Window(Find(store, SearchFilter(medicine)), 0, 20);
    seq(|found|, i requires 0 <= i < |found| => found[i].name)
  }

  /** An absent or empty `query` makes the search route answer exactly as the list route. */
  lemma SearchWithoutQueryIsList(store: seq<Medicine>, query: Option<string>, page: Option<string>)
    requires query.None? || query.value == ""
    ensures SearchMedicines(store, query, page) == ListMedicines(store, page)
  {
  }

  /** With a non-empty query a document is counted iff its name or its brand contains the query,
      letter case ignored; everything listed is counted, and the slice is the filtered
      sequence's slice at `(page - 1) * 20`. */
  lemma SearchSelectsNameOrBrand(store: seq<Medicine>, query: string, page: Option<string>)
    requires IsLiteralPattern(query) && query != ""
    requires CoercePage(page) >= 1
    ensures SearchMedicines(store, Some(query), page).Ok?
    ensures var matching := Find(store, NameOrBrand(query));
            && SearchMedicines(store, Some(query), page).body.totalItems == |matching|
            && SearchMedicines(store, Some(query), page).body.medicines ==
                 Window(matching, (CoercePage(page) - 1) * ItemsPerPage, ItemsPerPage)
            && (forall m :: m in store ==>
                 (m in matching <==> ContainsIgnoringCase(m.name, query) || ContainsIgnoringCase(m.brand, query)))
  {
    var matching := Find(store, NameOrBrand(query));
    forall m | m in store
      ensures m in matching <==> ContainsIgnoringCase(m.name, query) || ContainsIgnoringCase(m.brand, query)
    {
      FindMembers(store, NameOrBrand(query), m);
      RegexMatchesIff(m.name, query);
      RegexMatchesIff(m.brand, query);
    }
  }

  /** Queries that differ only in letter case give the same answer. */
  lemma SearchIgnoresCase(store: seq<Medicine>, p: string, q: string, page: Option<string>)
    requires IsLiteralPattern(p) && IsLiteralPattern(q)
    requires SameIgnoringCase(p, q)
    ensures SearchMedicines(store, Some(p), page) == SearchMedicines(store, Some(q), page)
  {
    if p != "" {
      FindIgnoresCase(store, p, q);
    }
  }

  /** A query no name or brand contains gives no records, no items and zero pages. */
  lemma SearchWithoutMatch(store: seq<Medicine>, query: string, page: Option<string>)
    requires IsLiteralPattern(query)
    requires forall m :: m in store ==> !ContainsIgnoringCase(m.name, query) && !ContainsIgnoringCase(m.brand, query)
    requires CoercePage(page) >= 1
    ensures SearchMedicines(store, Some(query), page) == Ok(Page([], 0, CoercePage(page), 0))
  {
    if query == "" {
      if store != [] {
        EmptyPatternMatches(store[0].name);
        RegexMatchesIff(store[0].name, query);
      }
    } else {
      var matching := Find(store, NameOrBrand(query));
      if matching != [] {
        var m := matching[0];
        FindMembers(store, NameOrBrand(query), m);
        RegexMatchesIff(m.name, query);
        RegexMatchesIff(m.brand, query);
        assert false;
      }
    }
  }

  /** `/search` without a `medicine` term lists the first 20 names of the collection. */
  lemma SearchNamesWithoutTerm(store: seq<Medicine>)
    ensures |SearchNames(store, None)| == Min(20, |store|)
    ensures forall i :: 0 <= i < |SearchNames(store, None)| ==> SearchNames(store, None)[i] == store[i].name
  {
    FindAll(store);
  }

  /** Every name `/search` returns belongs to a document whose name or brand contains the term. */
  lemma SearchNamesMatch(store: seq<Medicine>, term: string, i: int)
    requires IsLiteralPattern(term)
    requires 0 <= i < |SearchNames(store, Some(term))|
    ensures exists m :: m in store && m.name == SearchNames(store, Some(term))[i] &&
                        (ContainsIgnoringCase(m.name, term) || ContainsIgnoringCase(m.brand, term))
  {
    var m := Find(store, SearchFilter(Some(term)))[i];
    FindMembers(store, SearchFilter(Some(term)), m);
    RegexMatchesIff(m.name, term);
    RegexMatchesIff(m.brand, term);
    if term == "" {
      EmptyPatternMatches(m.name);
    }
  }
}
