# Medicine lookup service: the pagination and search contract

This project models, in Dafny, the request handlers of the medicine-lookup backend
(`server.js` and its near-duplicate `server.ts`). Each handler turns query-string
parameters into a page number, a skip/limit window, a MongoDB filter and a response
envelope `{ medicines, totalPages, currentPage, totalItems }`, and leaves the work to the
database. The model replaces the database by a fixed sequence of documents:

- `find(filter)` is `Store.Find`, the documents satisfying the filter in store order;
- `countDocuments(filter)` is `Store.CountDocuments`, a separate count proved equal to the
  length of `find`'s result;
- `skip(k).limit(n)` is `Store.Window`, a contiguous slice.

Modules, in dependency order:

- `QueryParams` (query_params.dfy): absent/present parameters, JavaScript's `parseInt` on
  a signed decimal string, and the page coercion `parseInt(page) || 1`.
- `Matching` (matching.dfy): the `{ $regex: term, $options: 'i' }` condition for a term
  without regular-expression metacharacters, as an unanchored scan, proved equivalent to
  case-insensitive substring containment.
- `Store` (store.dfy): the `Medicine` document, the two filters (`{}` and the name-or-brand
  `$or`), `find`, `countDocuments`, `skip/limit`.
- `Envelope` (envelope.dfy): `ITEMS_PER_PAGE = 20`, `Math.ceil(total / 20)` as integer
  ceiling division, the envelope, and one paginated request (`Respond`).
- `ServerJs` (server_js.dfy): `/api/medicines`, `/api/medicines/search`, `/search`.
- `ServerTs` (server_ts.dfy): `/api/medicines`, `/api/medicines/search`, and lemmas that
  relate them to server.js.
- `Scenario` (scenario.dfy): a two-document worked example (Paracetamol/Calpol and
  Ibuprofen/Advil).

Behaviour of the code that the model keeps as written:

- A page is not always positive. `parseInt("-2") || 1` is `-2`, the skip is negative, the
  database rejects it and the handler answers 500. The model has this error path
  (`Envelope.Response.InternalError`) instead of assuming a positive page.
- A search term that no record matches gives `totalPages = 0` (`Math.ceil(0 / 20)`).
- server.ts has no empty-query shortcut, but `$regex: ""` matches every name, so for every
  present query its answers agree with server.js (`ServerTs.SearchAgreesWithJs`).

## Model

| member | source | states |
|---|---|---|
| QueryParams.ParseDigits | server.js:55 | `parseInt`'s digit part is NaN iff no digit leads the string, and is never negative |
| QueryParams.ParseInt | server.js:55 | a leading sign is optional; a negative result needs a leading `-`; unsigned strings parse by their digit run |
| QueryParams.CoercePage | server.js:55 | `parseInt(page) \|\| 1`: never 0; an absent page is 1; a parsed non-zero number is used as is, whatever its spelling (`+5`, `05`, `-05`); any page other than 1 is exactly the parsed number |
| QueryParams.ParseIntDecimal | server.js:55 | a decimal spelling with sign `-`, `+` or none, followed by nothing or a non-digit, parses back to its number |
| QueryParams.CoerceDecimalPage | server.js:111 | a positive page sent in decimal is used as is (trailing non-digits ignored); a negative one stays negative |
| QueryParams.CoerceZeroPage | server.js:55 | `0`, `-0` and `+0` are falsy after parsing and become page 1 |
| QueryParams.CoerceNonNumericPage | server.ts:41 | a value with no digit after its optional sign becomes page 1 |
| Matching.RegexMatches | server.js:90-91 | the case-insensitive `$regex` condition: a match at the start of the text is a match, and a matching text is at least as long as the pattern (the full meaning is `Matching.RegexMatchesIff`) |
| Matching.RegexMatchesIff | server.js:117-118 | the literal case-insensitive pattern matches a text iff the text contains it, letter case ignored (both directions) |
| Matching.EmptyPatternMatches | server.ts:76-77 | the empty pattern matches every text |
| Matching.MatchesIgnoreCase | server.js:90-91 | two patterns equal up to letter case match the same texts |
| Store.Selects | server.js:115-120 | a document satisfies `{}` always, and the name-or-brand `$or` iff its name or its brand contains the pattern, letter case ignored |
| Store.Find | server.js:124 | `find` returns no more documents than the store holds |
| Store.FindMembers | server.js:115-124 | a document is in `find(f)`'s result iff it is in the store and satisfies `f` (both directions) |
| Store.CountDocuments | server.js:65 | `countDocuments` never exceeds the collection size, and counts the whole collection under `{}` |
| Store.CountIsFindLength | server.js:128 | `countDocuments(f)` equals the number of documents `find(f)` returns |
| Store.FindConcat | server.js:124 | `find` keeps store order: it distributes over concatenation |
| Store.FindAll | server.js:61 | the filter `{}` returns the whole collection unchanged |
| Store.EmptyPatternFindsAll | server.ts:74-79 | the `$or` filter over `""` returns the whole collection |
| Store.FindIgnoresCase | server.js:117-118 | patterns equal up to letter case select the same documents |
| Store.Window | server.js:62-63 | `skip(k).limit(n)` holds `min(n, len - k)` records (none past the end), the ones at offsets `k`, `k+1`, … |
| Envelope.Skip | server.js:125 | `(page - 1) * 20` is negative iff the page is below 1, is always a multiple of 20, and for a page from 1 on is the number of records on the pages before it |
| Envelope.TotalPages | server.js:70 | `Math.ceil(total / 20)`: the fewest pages of 20 that hold `total` records; 0 exactly for an empty result |
| Envelope.Respond | server.js:122-136 | 500 iff the page is below 1; otherwise `currentPage` echoes the page, `totalItems` counts the filtered sequence, `totalPages` is its ceiling, and `medicines` is at most 20 records of the filtered sequence starting at `(page-1)*20`, as many as remain |
| Envelope.PastLastPage | server.js:62-72 | a page past `totalPages` gives empty `medicines` with the same totals as page 1 and echoes the page |
| Envelope.TotalsIndependentOfPage | server.js:65-72 | `totalItems` and `totalPages` do not depend on the page |
| Envelope.PagesCoverAll | server.js:62-63 | the windows of pages 1..`totalPages` concatenated give back the whole sequence |
| Envelope.PagingVisitsEveryRecord | server.js:122-129 | requesting pages 1..`totalPages` in turn returns every selected record exactly once, in store order |
| ServerJs.ListMedicines | server.js:53-78 | 500 iff the coerced page is below 1; otherwise the slice of the store at `(page-1)*20` of at most 20 records, `totalItems` = store size, `totalPages` = its ceiling, `currentPage` = coerced page |
| ServerJs.SearchFilter | server.js:115-120 | an absent or empty query gives `{}`; any other query gives the name-or-brand filter over it |
| ServerJs.SearchMedicines | server.js:108-141 | the slice and `totalItems` come from the same filtered sequence; at most `min(20, totalItems)` records, each from the store and selected by the filter |
| ServerJs.SearchNames | server.js:81-105 | exactly `min(20, #matches)` names, the Medicine Names of the first matching documents in store order |
| ServerJs.SearchWithoutQueryIsList | server.js:115-120 | an absent or empty query answers exactly as `/api/medicines` for the same page |
| ServerJs.SearchSelectsNameOrBrand | server.js:115-129 | with a non-empty query, a document is counted iff its name or its brand contains the query ignoring case; the slice is that sequence's window |
| ServerJs.SearchIgnoresCase | server.js:117-118 | queries that differ only in letter case give identical answers |
| ServerJs.SearchWithoutMatch | server.js:122-136 | a query no name or brand contains gives no records, 0 items and 0 pages |
| ServerJs.SearchNamesWithoutTerm | server.js:88-98 | without a `medicine` term, the first `min(20, size)` names of the store |
| ServerJs.SearchNamesMatch | server.js:88-100 | every returned name belongs to a store document whose name or brand contains the term |
| ServerTs.ListMedicines | server.ts:39-64 | same contract as the server.js list route: store slice at `(page-1)*20`, at most 20, totals over the whole store |
| ServerTs.SearchMedicines | server.ts:67-100 | always the name-or-brand filter; `totalItems` and the slice come from the filtered sequence, `totalPages` from the filtered total |
| ServerTs.ListAgreesWithJs | server.ts:45-58 | the server.ts list route answers exactly as the server.js one |
| ServerTs.EmptyQueryIsList | server.ts:74-88 | `query=""` answers exactly as the list route, with no shortcut |
| ServerTs.SearchAgreesWithJs | server.ts:74-79 | for every modelled query the server.ts search answers as the server.js search |
| ServerTs.SearchSelectsNameOrBrand | server.ts:74-79 | a document is in the filtered sequence iff its name or brand contains the query ignoring case |
| Scenario.BrandMatchScenario | server.js:115-136 | `query=cal` matches the Paracetamol record's brand "Calpol" and not its name; over the two-document store it returns only that record: one page, one item |
| Scenario.ListScenario | server.js:59-73 | `page=1` over the two-document store returns both records, one page, two items |

## Left out

- Database connection, index creation, CORS, dotenv, the ngrok health route, the global error
  handler, startup and SIGINT shutdown: I/O and process lifecycle.
- The `Promise.all` in each handler: `find` and `countDocuments` are modelled as two reads of
  one snapshot; concurrent writes between them are not modelled (the service never writes).
- Store ordering: the collection is a fixed sequence and "store order" is its order; MongoDB's
  natural order is not specified.
- Any other database failure than a negative skip: it becomes the same 500, but the model
  does not produce it.
- Matching.RegexMatches: covers only patterns without the metacharacters `\ ^ $ . | ? * + ( ) [ ] { }`,
  because the handlers pass user input unescaped into `$regex` and a full regex engine is out of scope;
  case folding covers ASCII letters only.
- QueryParams.ParseInt: leading white space, the `0x`/`0X` hex prefix that `parseInt` honours
  without a radix, and the precision loss of numbers beyond 2^53 are not modelled.
- Envelope.Skip: JavaScript's floating-point arithmetic on huge pages and the database's 64-bit
  skip limit are not modelled; integers are unbounded.
- Array- or object-valued query parameters (`?page=1&page=2`, `?page[x]=1`, `?query[$ne]=a`, which
  Express's query parser turns into arrays and objects) are not modelled; a truthy object `query`
  would still reach `$regex`.
- ServerTs.SearchMedicines: takes `query` as a string; with `query` absent the filter holds
  `$regex: undefined`, whose handling belongs to the database driver and is not modelled, so the
  server.ts and server.js search routes are not shown to agree when `query` is absent.
- ServerJs.SearchNames: every document is modelled with a name, so a document missing
  "Medicine Name" (which would yield `null` in the JSON array) is not modelled.
- The React front end and the build configuration are presentational and not modelled.
