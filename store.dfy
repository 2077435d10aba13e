/** The "data" collection of the "medicine" database as the handlers read it: a fixed
    sequence of documents, the two filter shapes the handlers build, and MongoDB's
    `find(filter)`, `countDocuments(filter)` and `skip(k).limit(n)` over that sequence. */
module Store {
  import opened Matching

  /** A medicine document. Only "Medicine Name" and "Brand Name" take part in the handlers'
      logic; every other field (composition, uses, side effects, image, manufacturer, review
      percentages, substitutes, alternatives, predicted effects) is carried along untouched. */
  datatype Medicine = Medicine(name: string, brand: string, details: Details)

  /** The remaining fields of a document, as field name and serialized value. */
  datatype Details = Details(fields: seq<(string, string)>)

  /** The two filters the handlers build: `{}`, and
      `{ $or: [ { "Medicine Name": { $regex: p, $options: 'i' } },
                { "Brand Name":    { $regex: p, $options: 'i' } } ] }`. */
  datatype Filter = All | NameOrBrand(pattern: string)

  /** The model covers patterns without regular-expression metacharacters only. */
  predicate Supported(f: Filter)
  {
    f.NameOrBrand? ==> IsLiteralPattern(f.pattern)
  }

  /** Whether a document satisfies a filter. */
  predicate Selects(f: Filter, m: Medicine)
    requires Supported(f)
    ensures Selects(f, m) <==>
              match f
              case All => true
              case NameOrBrand(p) => ContainsIgnoringCase(m.name, p) || ContainsIgnoringCase(m.brand, p)
  {
    match f
    case All => true
    case NameOrBrand(p) =>
      RegexMatchesIff(m.name, p);
      RegexMatchesIff(m.brand, p);
      RegexMatches(m.name, p) || RegexMatches(m.brand, p)
  }

  /** `find(f)`: the documents that satisfy `f`, in store order. */
  function Find(store: seq<Medicine>, f: Filter): (r: seq<Medicine>)
    requires Supported(f)
    ensures |r| <= |store|
    decreases |store|
  {
    if |store| == 0 then []
    else (if Selects(f, store[0]) then [store[0]] else []) + Find(store[1..], f)
  }

  /** `find(f)` returns exactly the documents of the store that satisfy `f`. */
  lemma {:induction false} FindMembers(store: seq<Medicine>, f: Filter, m: Medicine)
    requires Supported(f)
    ensures m in Find(store, f) <==> m in store && Selects(f, m)
    decreases |store|
  {
    if store != [] {
      FindMembers(store[1..], f, m);
      assert m in store <==> m == store[0] || m in store[1..];
    }
  }

  lemma FindMembersAll(store: seq<Medicine>, f: Filter)
    requires Supported(f)
    ensures forall m :: m in Find(store, f) <==> m in store && Selects(f, m)
  {
    forall m
      ensures m in Find(store, f) <==> m in store && Selects(f, m)
    {
      FindMembers(store, f, m);
    }
  }

  /** `countDocuments(f)`: the number of documents that satisfy `f`. */
  function CountDocuments(store: seq<Medicine>, f: Filter): (n: nat)
    requires Supported(f)
    ensures n <= |store|
    ensures f.All? ==> n == |store|
    decreases |store|
  {
    if store == [] then 0
    else (if Selects(f, store[0]) then 1 else 0) + CountDocuments(store[1..], f)
  }

  /** `countDocuments(f)` counts exactly what `find(f)` returns. */
  lemma {:induction false} CountIsFindLength(store: seq<Medicine>, f: Filter)
    requires Supported(f)
    ensures CountDocuments(store, f) == |Find(store, f)|
    decreases |store|
  {
    if store != [] {
      CountIsFindLength(store[1..], f);
    }
  }

  /** `find` keeps store order: filtering a concatenation filters each part in turn. */
  lemma {:induction false} FindConcat(a: seq<Medicine>, b: seq<Medicine>, f: Filter)
    requires Supported(f)
    ensures Find(a + b, f) == Find(a, f) + Find(b, f)
    decreases |a|
  {
    if |a| == 0 {
      assert a + b == b;
    } else {
      var h := if Selects(f, a[0]) then [a[0]] else [];
      assert (a + b)[0] == a[0];
      assert (a + b)[1..] == a[1..] + b;
      FindConcat(a[1..], b, f);
      assert Find(a, f) == h + Find(a[1..], f);
      assert Find(a + b, f) == h + (Find(a[1..], f) + Find(b, f));
      ConcatAssoc(h, Find(a[1..], f), Find(b, f));
    }
  }

  lemma ConcatAssoc<T>(x: seq<T>, y: seq<T>, z: seq<T>)
    ensures x + (y + z) == (x + y) + z
  {
  }

  /** The empty filter `{}` returns the whole collection. */
  lemma {:induction false} FindAll(store: seq<Medicine>)
    ensures Find(store, All) == store
    decreases |store|
  {
    if store != [] {
      FindAll(store[1..]);
    }
  }

  /** Two filters that select the same documents give the same `find` result. */
  lemma {:induction false} FindSameSelection(store: seq<Medicine>, f: Filter, g: Filter)
    requires Supported(f) && Supported(g)
    requires forall m :: m in store ==> (Selects(f, m) <==> Selects(g, m))
    ensures Find(store, f) == Find(store, g)
    decreases |store|
  {
    if store != [] {
      FindSameSelection(store[1..], f, g);
    }
  }

  /** The pattern `""` matches every name, so the `$or` filter over it selects the whole collection. */
  lemma EmptyPatternFindsAll(store: seq<Medicine>)
    ensures Find(store, NameOrBrand("")) == store
  {
    forall m | m in store
      ensures Selects(NameOrBrand(""), m) <==> Selects(All, m)
    {
      EmptyPatternMatches(m.name);
    }
    FindSameSelection(store, NameOrBrand(""), All);
    FindAll(store);
  }

  /** Patterns that differ only in letter case select the same documents. */
  lemma FindIgnoresCase(store: seq<Medicine>, p: string, q: string)
    requires IsLiteralPattern(p) && IsLiteralPattern(q)
    requires SameIgnoringCase(p, q)
    ensures Find(store, NameOrBrand(p)) == Find(store, NameOrBrand(q))
  {
    forall m | m in store
      ensures Selects(NameOrBrand(p), m) <==> Selects(NameOrBrand(q), m)
    {
      MatchesIgnoreCase(m.name, p, q);
      MatchesIgnoreCase(m.brand, p, q);
    }
    FindSameSelection(store, NameOrBrand(p), NameOrBrand(q));
  }

  function Min(a: int, b: int): int { if a <= b then a else b }

  /** `skip(k).limit(n)` on a cursor: the records from offset `k` on, at most `n` of them;
      nothing when `k` is past the end. */
  function Window<T>(s: seq<T>, skip: nat, limit: nat): (r: seq<T>)
    ensures |r| == if skip >= |s| then 0 else Min(limit, |s| - skip)
    ensures forall i :: 0 <= i < |r| ==> r[i] == s[skip + i]
  {
    if skip >= |s| then [] else s[skip..skip + Min(limit, |s| - skip)]
  }
}
