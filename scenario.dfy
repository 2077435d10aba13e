/** A worked example of the search contract on a two-document collection:
    "Paracetamol 500mg" (brand Calpol) and "Ibuprofen 200mg" (brand Advil). */
module Scenario {
  import opened QueryParams
  import opened Matching
  import opened Store
  import opened Envelope
  import opened ServerJs

  /** The Paracetamol record, whatever its other fields. */
  predicate IsParacetamol(m: Medicine) { m.name == "Paracetamol 500mg" && m.brand == "Calpol" }

  /** The Ibuprofen record, whatever its other fields. */
  predicate IsIbuprofen(m: Medicine) { m.name == "Ibuprofen 200mg" && m.brand == "Advil" }

  lemma CalIsLiteral()
    ensures IsLiteralPattern("cal")
  {
    assert !IsMeta('c') && !IsMeta('a') && !IsMeta('l');
  }

  lemma CalMatchesCalpol()
    ensures RegexMatches("Calpol", "cal")
  {
    assert MatchesHere("Calpol", "cal");
  }

  lemma CalMissesParacetamolName()
    ensures !RegexMatches("Paracetamol 500mg", "cal")
  {
    NoLeadingPair("Paracetamol 500mg", "cal");
  }

  lemma CalMissesIbuprofenName()
    ensures !RegexMatches("Ibuprofen 200mg", "cal")
  {
    NoLeadingPair("Ibuprofen 200mg", "cal");
  }

  lemma CalMissesIbuprofenBrand()
    ensures !RegexMatches("Advil", "cal")
  {
    NoLeadingPair("Advil", "cal");
  }

  /** It is the brand of the Paracetamol record that `cal` matches, not its name. */
  lemma CalMatchesParacetamolBrandOnly(m: Medicine)
    requires IsParacetamol(m)
    ensures RegexMatches(m.brand, "cal") && !RegexMatches(m.name, "cal")
  {
    CalMatchesCalpol();
    CalMissesParacetamolName();
  }

  lemma CalMatchesParacetamol(m: Medicine)
    requires IsParacetamol(m)
    ensures Selects(NameOrBrand("cal"), m)
  {
    CalMatchesCalpol();
  }

  lemma CalMissesIbuprofen(m: Medicine)
    requires IsIbuprofen(m)
    ensures !Selects(NameOrBrand("cal"), m)
  {
    CalMissesIbuprofenName();
    CalMissesIbuprofenBrand();
  }

  lemma SearchPair(a: Medicine, b: Medicine, query: string)
    requires IsLiteralPattern(query) && query != ""
    requires Selects(NameOrBrand(query), a) && !Selects(NameOrBrand(query), b)
    ensures SearchMedicines([a, b], Some(query), None) == Ok(Page([a], 1, 1, 1))
  {
    assert [a, b][1..] == [b];
    assert Find([a, b], NameOrBrand(query)) == [a];
  }

  /** `search("cal")` returns the Calpol record alone, on one page; it is its brand that
      matches, not its name. */
  lemma BrandMatchScenario(para: Medicine, ibu: Medicine)
    requires IsParacetamol(para) && IsIbuprofen(ibu)
    ensures RegexMatches(para.brand, "cal") && !RegexMatches(para.name, "cal")
    ensures SearchMedicines([para, ibu], Some("cal"), None) == Ok(Page([para], 1, 1, 1))
  {
    CalMatchesParacetamolBrandOnly(para);
    CalMatchesParacetamol(para);
    CalMissesIbuprofen(ibu);
    CalIsLiteral();
    SearchPair(para, ibu, "cal");
  }

  lemma PageOneParses()
    ensures CoercePage(Some("1")) == 1
  {
    var one := Decimal(1);
    assert one == "1";
    assert one + [] == one;
    CoerceDecimalPage(1, []);
  }

  lemma SmallStoreOnePage(store: seq<Medicine>, page: Option<string>)
    requires 0 < |store| <= ItemsPerPage
    requires CoercePage(page) == 1
    ensures ListMedicines(store, page) == Ok(Page(store, 1, 1, |store|))
  {
    assert store[0..|store|] == store;
  }

  /** `list(1)` returns both records, one page, two items. */
  lemma ListScenario(para: Medicine, ibu: Medicine)
    requires IsParacetamol(para) && IsIbuprofen(ibu)
    ensures ListMedicines([para, ibu], Some("1")) == Ok(Page([para, ibu], 1, 1, 2))
  {
    PageOneParses();
    SmallStoreOnePage([para, ibu], Some("1"));
  }
}
