/** The catalog side of utils/data.py: product filtering, barcode detection,
    the two search routes and the selection of healthier alternatives. The
    catalog's HTTP endpoints are parameters: `lookup` answers a product URL
    and `search` answers a search request, each with decoded JSON or a
    failure (a `requests.RequestException`). */
module Data {
  import opened Wrappers
  import opened Seqs
  import opened Text
  import opened Products

  const ProductEndpoint := "https://world.openfoodfacts.org/api/v0/product"

  /** Exceptions that escape to the caller: `IndexError` from `split()[-1]`
      on a blank segment, `TypeError` from iterating a `null` product list. */
  datatype PyError = IndexError | TypeError

  // ---------------------------------------------------------------- requests and replies

  /** The query string of a search request. */
  datatype SearchParams = SearchParams(
    searchTerms: string,
    searchSimple: int,
    action: string,
    json: int,
    pageSize: int,
    sortBy: Option<string>)

  /** `_build_search_params(query, page_size)`. */
  function BuildSearchParams(query: string, pageSize: int): (p: SearchParams)
    ensures p.searchTerms == query && p.pageSize == pageSize && p.sortBy == None
    ensures p.searchSimple == 1 && p.action == "process" && p.json == 1
  {
    SearchParams(query, 1, "process", 1, pageSize, None)
  }

  /** The decoded answer to a product lookup: its `status` key and its
      `product` key (`None` when missing, null or empty). */
  datatype LookupReply = LookupFailed | LookupData(status: Field<int>, product: Option<Product>)

  /** The decoded answer to a search: its `products` key. */
  datatype CatalogReply = SearchFailed | SearchData(products: Field<seq<Product>>)

  datatype Catalog = Catalog(lookup: string -> LookupReply, search: SearchParams -> CatalogReply)

  /** `data.get("products", [])`, then iterated: a missing key is an empty
      list, a `null` one fails to iterate. */
  function ProductList(f: Field<seq<Product>>): (r: Result<seq<Product>, PyError>)
    ensures f.Absent? ==> r == Ok([])
    ensures f.Null? <==> r == Err(TypeError)
    ensures f.Val? ==> r == Ok(f.v)
  {
    match f
    case Absent => Ok([])
    case Null => Err(TypeError)
    case Val(ps) => Ok(ps)
  }

  // ---------------------------------------------------------------- filters

  /** The `filters` dictionary: three flags and two optional caps. */
  datatype Filters = Filters(vegan: bool, glutenFree: bool, organic: bool, maxSugar: Option<real>, maxSalt: Option<real>)

  /** `{}`: no flag set and both caps at their defaults. */
  const NoFilters := Filters(false, false, false, None, None)

  function SugarCap(f: Filters): real {
    f.maxSugar.GetOr(50.0)
  }

  function SaltCap(f: Filters): real {
    f.maxSalt.GetOr(10.0)
  }

  /** `nutriments.get(key)`. */
  function Nutrient(m: Nutriments, key: string): Option<real> {
    if key in m then m[key] else None
  }

  /** Python truthiness of a nutrient value: `None` and `0` are falsy. */
  predicate NutrientTruthy(v: Option<real>) {
    v.Some? && v.value != 0.0
  }

  /** `nutriments.get("sugars_100g") or nutriments.get("sugar_100g")`. */
  function SugarPer100g(m: Nutriments): Option<real> {
    var sugars := Nutrient(m, "sugars_100g");
    if NutrientTruthy(sugars) then sugars else Nutrient(m, "sugar_100g")
  }

  /** `value is not None and value > cap`. */
  predicate Exceeds(v: Option<real>, cap: real) {
    v.Some? && v.value > cap
  }

  function Labels(p: Product): string {
    Lower(OrEmpty(p.labels))
  }

  function Ingredients(p: Product): string {
    Lower(OrEmpty(p.ingredientsText))
  }

  /** `_apply_filters(product, filters)`: the checks in source order, each
      returning `False` early. */
  predicate ApplyFilters(p: Product, f: Filters) {
    var labels := Labels(p);
    var ingredients := Ingredients(p);
    if f.vegan && !Contains(labels, "vegan") && !Contains(labels, "végétalien") then false
    else if f.glutenFree && !Contains(labels, "sans gluten") && !Contains(labels, "gluten-free")
      && Contains(ingredients, "gluten") then false
    else if f.organic && !Contains(labels, "bio") && !Contains(labels, "organic") then false
    else if Exceeds(SugarPer100g(p.nutriments), SugarCap(f)) then false
    else if Exceeds(Nutrient(p.nutriments, "salt_100g"), SaltCap(f)) then false
    else true
  }

  predicate VeganLabelled(p: Product) {
    Contains(Labels(p), "vegan") || Contains(Labels(p), "végétalien")
  }

  /** Labelled gluten-free, or gluten not named among the ingredients. */
  predicate GlutenAcceptable(p: Product) {
    Contains(Labels(p), "sans gluten") || Contains(Labels(p), "gluten-free") || !Contains(Ingredients(p), "gluten")
  }

  predicate OrganicLabelled(p: Product) {
    Contains(Labels(p), "bio") || Contains(Labels(p), "organic")
  }

  /** The cascade accepts exactly the products that meet every requested
      criterion at once; a nutrient rejects only when present and above its
      cap. */
  lemma ApplyFiltersCriteria(p: Product, f: Filters)
    ensures ApplyFilters(p, f) <==>
      (f.vegan ==> VeganLabelled(p)) &&
      (f.glutenFree ==> GlutenAcceptable(p)) &&
      (f.organic ==> OrganicLabelled(p)) &&
      !Exceeds(SugarPer100g(p.nutriments), SugarCap(f)) &&
      !Exceeds(Nutrient(p.nutriments, "salt_100g"), SaltCap(f))
  {
  }

  /** Loosening the filters (dropping flags, raising caps) never rejects a
      product that passed before. */
  lemma ApplyFiltersMonotone(p: Product, strict: Filters, loose: Filters)
    requires loose.vegan ==> strict.vegan
    requires loose.glutenFree ==> strict.glutenFree
    requires loose.organic ==> strict.organic
    requires SugarCap(strict) <= SugarCap(loose) && SaltCap(strict) <= SaltCap(loose)
    ensures ApplyFilters(p, strict) ==> ApplyFilters(p, loose)
  {
    ApplyFiltersCriteria(p, strict);
    ApplyFiltersCriteria(p, loose);
  }

  /** A product with no nutrient values passes every filter set that asks
      for no label. */
  lemma ApplyFiltersNoNutrients(p: Product, f: Filters)
    requires p.nutriments == map[]
    requires !f.vegan && !f.glutenFree && !f.organic
    ensures ApplyFilters(p, f)
  {
  }

  /** A sugar value of 0 is falsy, so the check falls back to "sugar_100g". */
  lemma SugarZeroFallsBack(m: Nutriments)
    requires Nutrient(m, "sugars_100g") == Some(0.0)
    ensures SugarPer100g(m) == Nutrient(m, "sugar_100g")
  {
  }

  /** 40 g of sugar is rejected under a 30 g cap and accepted under the
      default 50 g one. */
  lemma SugarCapExample(p: Product)
    requires p.nutriments == map["sugars_100g" := Some(40.0)]
    ensures !ApplyFilters(p, NoFilters.(maxSugar := Some(30.0)))
    ensures ApplyFilters(p, NoFilters)
  {
    assert Nutrient(p.nutriments, "sugars_100g") == Some(40.0);
    assert Nutrient(p.nutriments, "salt_100g") == None;
  }

  // ---------------------------------------------------------------- barcodes

  /** `query.strip().replace(" ", "").replace("-", "")`. */
  function CleanQuery(q: string): string {
    RemoveChar(RemoveChar(Strip(q), ' '), '-')
  }

  /** `_is_barcode(query)`. */
  predicate IsBarcode(q: string) {
    var c := CleanQuery(q);
    IsDigits(c) && 8 <= |c| <= 13
  }

  predicate BarcodeChar(c: char) {
    IsDigit(c) || c == ' ' || c == '-'
  }

  /** Cleaning leaves only digits exactly when nothing but digits, spaces and
      hyphens was there. */
  lemma {:induction false} CleanOnlyDigits(t: string)
    ensures All(IsDigit, RemoveChar(RemoveChar(t, ' '), '-')) <==> All(BarcodeChar, t)
  {
    if t != [] {
      var x := t[0];
      var head := if x == ' ' then [] else [x];
      assert RemoveChar(t, ' ') == head + RemoveChar(t[1..], ' ');
      RemoveCharAppend(head, RemoveChar(t[1..], ' '), '-');
      AllAppend(IsDigit, RemoveChar(head, '-'), RemoveChar(RemoveChar(t[1..], ' '), '-'));
      assert All(IsDigit, RemoveChar(head, '-')) <==> BarcodeChar(x);
      CleanOnlyDigits(t[1..]);
    }
  }

  /** Cleaning removes no digit. */
  lemma CleanKeepsDigits(q: string)
    ensures CountDigits(CleanQuery(q)) == CountDigits(q)
  {
    CountDigitsStrip(q);
    CountDigitsRemoveChar(Strip(q), ' ');
    CountDigitsRemoveChar(RemoveChar(Strip(q), ' '), '-');
  }

  /** A query is a barcode exactly when, once stripped, it holds only digits,
      spaces and hyphens, and 8 to 13 digits in all. */
  lemma IsBarcodeMeaning(q: string)
    ensures IsBarcode(q) <==> All(BarcodeChar, Strip(q)) && 8 <= CountDigits(q) <= 13
  {
    var c := CleanQuery(q);
    CleanOnlyDigits(Strip(q));
    CleanKeepsDigits(q);
    if All(IsDigit, c) {
      CountDigitsAll(c);
    }
  }

  lemma {:induction false} DigitsAreBarcodeChars(s: string)
    requires All(IsDigit, s)
    ensures All(BarcodeChar, s)
  {
    if s != [] {
      DigitsAreBarcodeChars(s[1..]);
    }
  }

  /** An EAN-13 code, the usual shape of a barcode query. */
  const Ean13Example := "3017620422003"

  lemma Ean13ExampleDigits()
    ensures All(IsDigit, Ean13Example) && |Ean13Example| == 13
  {
  }

  lemma Ean13ExampleStripped()
    ensures Strip(Ean13Example) == Ean13Example
  {
    var q := Ean13Example;
    assert TrimLeft(q) == q;
    assert q + [] == q;
    TrimRightAllSpace(q, []);
  }

  /** A thirteen-digit query takes the barcode route. */
  lemma IsBarcodeExample()
    ensures IsBarcode(Ean13Example)
  {
    var q := Ean13Example;
    assert All(BarcodeChar, Strip(q)) && CountDigits(q) == 13 by {
      Ean13ExampleDigits();
      Ean13ExampleStripped();
      DigitsAreBarcodeChars(q);
      CountDigitsAll(q);
    }
    IsBarcodeMeaning(q);
  }

  // ---------------------------------------------------------------- search

  /** `f"{OPENFOODFACTS_API_PRODUCT}/{barcode_clean}.json"`. */
  function ProductUrl(clean: string): string {
    ProductEndpoint + "/" + clean + ".json"
  }

  /** `_get_product_by_barcode(barcode)`: the product when the lookup of the
      cleaned code answers with status 1 and a product, otherwise `None`. */
  function ProductByBarcode(lookup: string -> LookupReply, barcode: string): (r: Option<Product>)
    ensures var reply := lookup(ProductUrl(CleanQuery(barcode)));
      r.Some? <==> reply.LookupData? && reply.status == Val(1) && reply.product.Some?
    ensures r.Some? ==> r == lookup(ProductUrl(CleanQuery(barcode))).product
  {
    match lookup(ProductUrl(CleanQuery(barcode)))
    case LookupData(status, product) => if status == Val(1) && product.Some? then product else None
    case LookupFailed => None
  }

  function Passes(f: Filters): Product -> bool {
    p => ApplyFilters(p, f)
  }

  /** `search_products(query, filters, page_size)`. */
  function SearchProducts(catalog: Catalog, query: string, filters: Option<Filters>, pageSize: int): Result<seq<Product>, PyError> {
    var f := filters.GetOr(NoFilters);
    if IsBarcode(query) then
      match ProductByBarcode(catalog.lookup, query)
      case Some(p) => Ok(if ApplyFilters(p, f) then [p] else [])
      case None => Ok([])
    else
      match catalog.search(BuildSearchParams(query, pageSize))
      case SearchFailed => Ok([])
      case SearchData(products) =>
        match ProductList(products)
        case Ok(ps) => Ok(Filter(Passes(f), ps))
        case Err(e) => Err(e)
  }

  /** The barcode route: at most one product, only when the lookup found it
      and it passes the filters; a failed lookup gives `[]`. */
  lemma SearchByBarcode(catalog: Catalog, query: string, filters: Option<Filters>, pageSize: int)
    requires IsBarcode(query)
    ensures var r := SearchProducts(catalog, query, filters, pageSize);
      var found := ProductByBarcode(catalog.lookup, query);
      r.Ok? && |r.value| <= 1 &&
      (r.value != [] <==> found.Some? && ApplyFilters(found.value, filters.GetOr(NoFilters))) &&
      (r.value != [] ==> r.value == [found.value])
  {
  }

  /** The text route: exactly the products of the reply that pass the
      filters, as an order-preserving subsequence that keeps every copy of
      them; a failed request gives `[]` and a `null` list raises. */
  lemma SearchByText(catalog: Catalog, query: string, filters: Option<Filters>, pageSize: int)
    requires !IsBarcode(query)
    ensures var r := SearchProducts(catalog, query, filters, pageSize);
      var reply := catalog.search(BuildSearchParams(query, pageSize));
      var f := filters.GetOr(NoFilters);
      (reply.SearchFailed? ==> r == Ok([])) &&
      (reply.SearchData? && reply.products.Absent? ==> r == Ok([])) &&
      (reply.SearchData? && reply.products.Null? ==> r == Err(TypeError)) &&
      (reply.SearchData? && reply.products.Val? ==>
        r.Ok? && IsSubsequence(r.value, reply.products.v) &&
        (forall p :: p in r.value <==> p in reply.products.v && ApplyFilters(p, f)) &&
        forall p :: multiset(r.value)[p] == (if ApplyFilters(p, f) then multiset(reply.products.v)[p] else 0))
  {
    var reply := catalog.search(BuildSearchParams(query, pageSize));
    if reply.SearchData? && reply.products.Val? {
      FilterMultiset(Passes(filters.GetOr(NoFilters)), reply.products.v);
    }
  }

  /** The barcode route never issues a text search. */
  lemma BarcodeRouteIgnoresSearch(c1: Catalog, c2: Catalog, query: string, filters: Option<Filters>, pageSize: int)
    requires IsBarcode(query) && c1.lookup == c2.lookup
    ensures SearchProducts(c1, query, filters, pageSize) == SearchProducts(c2, query, filters, pageSize)
  {
  }

  /** The text route never looks a product up. */
  lemma TextRouteIgnoresLookup(c1: Catalog, c2: Catalog, query: string, filters: Option<Filters>, pageSize: int)
    requires !IsBarcode(query) && c1.search == c2.search
    ensures SearchProducts(c1, query, filters, pageSize) == SearchProducts(c2, query, filters, pageSize)
  {
  }

  /** Without filters, a barcode hit that carries no nutrient values is
      returned alone. */
  lemma SearchBarcodeUnfiltered(catalog: Catalog, query: string, pageSize: int, p: Product)
    requires IsBarcode(query) && ProductByBarcode(catalog.lookup, query) == Some(p)
    requires p.nutriments == map[]
    ensures SearchProducts(catalog, query, None, pageSize) == Ok([p])
  {
  }

  // ---------------------------------------------------------------- search term

  /** `product.get("categories_tags", []) or []`. */
  function TagsOf(p: Product): seq<string> {
    if p.categoriesTags.Val? then p.categoriesTags.v else []
  }

  /** The term `find_alternatives` searches for: the last category tag without
      its "en:" and "fr:" prefixes, else the last word of the first
      comma-separated category, else "" (no search). */
  function SearchTerm(p: Product): Result<string, PyError> {
    var categories := OrEmpty(p.categories);
    var tags := TagsOf(p);
    if tags != [] then
      Ok(RemoveAll(RemoveAll(tags[|tags| - 1], "en:"), "fr:"))
    else if categories != "" then
      var words := Words(Strip(FirstSegment(categories)));
      if words == [] then Err(IndexError) else Ok(words[|words| - 1])
    else Ok("")
  }

  /** With tags, the term is the last tag with "en:" then "fr:" removed; a tag
      holding neither comes through unchanged. */
  lemma SearchTermFromTags(p: Product)
    requires TagsOf(p) != []
    ensures var last := TagsOf(p)[|TagsOf(p)| - 1];
      SearchTerm(p) == Ok(RemoveAll(RemoveAll(last, "en:"), "fr:")) &&
      (!Contains(last, "en:") && !Contains(last, "fr:") ==> SearchTerm(p) == Ok(last))
  {
    var last := TagsOf(p)[|TagsOf(p)| - 1];
    if !Contains(last, "en:") && !Contains(last, "fr:") {
      RemoveAllAbsent(last, "en:");
      RemoveAllAbsent(last, "fr:");
    }
  }

  /** Without tags, the term is the last word of the stripped first segment of
      `categories`: non-empty and free of whitespace. A segment of whitespace
      only makes `split()[-1]` raise. */
  lemma SearchTermFromCategories(p: Product)
    requires TagsOf(p) == [] && Truthy(p.categories)
    ensures var seg := Strip(FirstSegment(p.categories.v));
      (AllSpace(seg) <==> SearchTerm(p) == Err(IndexError)) &&
      (!AllSpace(seg) ==> (SearchTerm(p) == Ok(LastWordFromRight(seg)) &&
        LastWordFromRight(seg) != [] && All(NotSpace, LastWordFromRight(seg))))
  {
    var seg := Strip(FirstSegment(p.categories.v));
    WordsEmpty(seg);
    if !AllSpace(seg) {
      LastWordAgrees(seg);
      var t := TrimRight(seg);
      TrimRightEmpty(seg);
      TrimRightEnds(seg);
      WordSuffixNonEmpty(t);
      WordSuffixNoSpace(t);
    }
  }

  /** With neither tags nor categories there is nothing to search for. */
  lemma SearchTermNone(p: Product)
    requires TagsOf(p) == [] && !Truthy(p.categories)
    ensures SearchTerm(p) == Ok("")
  {
  }

  // ---------------------------------------------------------------- candidate scan

  /** The loop of `find_alternatives` over any candidates, from the state where
      `kept` has been collected and `cands` remain: a candidate that `skip`
      accepts is passed over (`continue`), one that `better` accepts is
      appended, and after every other candidate the scan stops once
      `len(kept) >= m` (`break`). */
  function Scan<T>(skip: T -> bool, better: T -> bool, m: int, cands: seq<T>, kept: seq<T>): seq<T>
    decreases |cands|
  {
    if cands == [] then kept
    else
      var c := cands[0];
      if skip(c) then Scan(skip, better, m, cands[1..], kept)
      else
        var kept' := if better(c) then kept + [c] else kept;
        if |kept'| >= m then kept' else Scan(skip, better, m, cands[1..], kept')
  }

  /** Not skipped: the candidates that reach the `break` test. */
  function Unskipped<T>(skip: T -> bool): T -> bool {
    c => !skip(c)
  }

  /** Not skipped and better: what the scan keeps. */
  function Keeps<T>(skip: T -> bool, better: T -> bool): T -> bool {
    c => !skip(c) && better(c)
  }

  lemma TakeCons<T>(c: T, s: seq<T>, n: nat)
    requires n >= 1
    ensures Take([c] + s, n) == [c] + Take(s, n - 1)
  {
    if n - 1 <= |s| {
      assert ([c] + s)[..n] == [c] + s[..n - 1];
    }
  }

  /** For a positive bound the scan keeps the first candidates it would keep
      at all, as many as fit. */
  lemma {:induction false} ScanTakesFirst<T(!new)>(skip: T -> bool, better: T -> bool, m: int, cands: seq<T>, kept: seq<T>)
    requires m >= 1 && |kept| < m
    ensures Scan(skip, better, m, cands, kept) == kept + Take(Filter(Keeps(skip, better), cands), m - |kept|)
    decreases |cands|
  {
    var keeps := Keeps(skip, better);
    if cands == [] {
      assert kept + [] == kept;
    } else {
      var c, rest := cands[0], cands[1..];
      var n := m - |kept|;
      if !keeps(c) {
        assert Filter(keeps, cands) == Filter(keeps, rest);
        ScanTakesFirst(skip, better, m, rest, kept);
      } else {
        var f := Filter(keeps, rest);
        assert Filter(keeps, cands) == [c] + f;
        TakeCons(c, f, n);
        if |kept| + 1 >= m {
          assert Take(f, 0) == [];
          assert kept + [c] == kept + ([c] + Take(f, 0));
        } else {
          ScanTakesFirst(skip, better, m, rest, kept + [c]);
          AppendAssoc(kept, [c], Take(f, n - 1));
        }
      }
    }
  }

  /** For a bound of 0 or below the scan stops at the first unskipped
      candidate: it keeps nothing, or that candidate when it is better. */
  lemma {:induction false} ScanNonPositive<T(!new)>(skip: T -> bool, better: T -> bool, m: int, cands: seq<T>)
    requires m <= 0
    ensures |Scan(skip, better, m, cands, [])| <= 1
    ensures IsSubsequence(Scan(skip, better, m, cands, []), cands)
    ensures forall x :: x in Scan(skip, better, m, cands, []) ==> Keeps(skip, better)(x)
    ensures var u := Filter(Unskipped(skip), cands);
      Scan(skip, better, m, cands, []) == (if u != [] && better(u[0]) then [u[0]] else [])
    decreases |cands|
  {
    if cands != [] {
      var c := cands[0];
      var r := Scan(skip, better, m, cands, []);
      if skip(c) {
        assert Filter(Unskipped(skip), cands) == Filter(Unskipped(skip), cands[1..]);
        ScanNonPositive(skip, better, m, cands[1..]);
      } else if better(c) {
        assert Filter(Unskipped(skip), cands)[0] == c;
        assert r == [c];
        assert IsSubsequence(r[1..], cands[1..]);
      } else {
        assert Filter(Unskipped(skip), cands)[0] == c;
        assert r == [];
      }
    }
  }

  /** The scan keeps a subsequence of the candidates, each of them kept by
      the tests. */
  lemma ScanKeeps<T(!new)>(skip: T -> bool, better: T -> bool, m: int, cands: seq<T>)
    ensures IsSubsequence(Scan(skip, better, m, cands, []), cands)
    ensures forall x :: x in Scan(skip, better, m, cands, []) ==> Keeps(skip, better)(x)
  {
    if m >= 1 {
      ScanTakesFirst(skip, better, m, cands, []);
      var f := Filter(Keeps(skip, better), cands);
      assert [] + Take(f, m) == Take(f, m);
      SubsequenceOfPrefix(f, cands, |Take(f, m)|);
    } else {
      ScanNonPositive(skip, better, m, cands);
    }
  }

  /** A candidate the loop passes over with `continue`: the source's own
      identity, or no name, or no grade. */
  predicate Skipped(src: Product, c: Product) {
    Identity(c) == Identity(src) || !Truthy(c.productName) || !Truthy(c.nutriscoreGrade)
  }

  function SkipFor(src: Product): Product -> bool {
    c => Skipped(src, c)
  }

  /** `candidate_nutri < current_nutri`. */
  function BetterFor(src: Product): Product -> bool {
    c => Value(c) < Value(src)
  }

  /** The candidates `find_alternatives` keeps: another identity, a name and
      a grade present, and a strictly better ordinal than the source. */
  predicate Eligible(src: Product, c: Product) {
    Identity(c) != Identity(src) && Truthy(c.productName) && Truthy(c.nutriscoreGrade) && Value(c) < Value(src)
  }

  function EligibleFor(src: Product): Product -> bool {
    c => Eligible(src, c)
  }

  lemma KeepsEligible(src: Product, c: Product)
    ensures Keeps(SkipFor(src), BetterFor(src))(c) == Eligible(src, c)
  {
  }

  /** Filtering by the scan's tests is filtering by eligibility. */
  lemma {:induction false} FilterEligible(src: Product, cands: seq<Product>)
    ensures Filter(Keeps(SkipFor(src), BetterFor(src)), cands) == Filter(EligibleFor(src), cands)
  {
    if cands != [] {
      KeepsEligible(src, cands[0]);
      FilterEligible(src, cands[1..]);
    }
  }

  // ---------------------------------------------------------------- stable sort

  /** Non-decreasing by ordinal. */
  predicate SortedByValue(s: seq<Product>) {
    SortedBy(Value, s)
  }

  /** `list.sort(key=_nutriscore_to_value)`: a stable sort by ordinal. */
  function SortByValue(s: seq<Product>): seq<Product> {
    SortBy(Value, s)
  }

  /** The sort is a permutation that orders by ordinal and, for each ordinal,
      keeps the original relative order (stability). */
  lemma SortByValueCorrect(s: seq<Product>)
    ensures multiset(SortByValue(s)) == multiset(s)
    ensures SortedByValue(SortByValue(s))
    ensures forall k :: Filter(HasKey(Value, k), SortByValue(s)) == Filter(HasKey(Value, k), s)
  {
    SortByCorrect(Value, s);
  }

  // ---------------------------------------------------------------- alternatives

  /** The scan, the sort and `alternatives[:max_results]`. */
  function AlternativesOf(src: Product, m: int, cands: seq<Product>): seq<Product> {
    PySlice(SortByValue(Scan(SkipFor(src), BetterFor(src), m, cands, [])), m)
  }

  /** The request `find_alternatives` issues for a term. */
  function AlternativesQuery(term: string): SearchParams {
    BuildSearchParams(term, 50).(sortBy := Some("nutriscore_grade"))
  }

  /** What `find_alternatives(product, max_results)` returns, given the
      catalog's answer to the search it issues. */
  function Alternatives(src: Product, m: int, search: SearchParams -> CatalogReply): Result<seq<Product>, PyError> {
    match SearchTerm(src)
    case Err(e) => Err(e)
    case Ok(term) =>
      if term == "" then Ok([])
      else
        match search(AlternativesQuery(term))
        case SearchFailed => Ok([])
        case SearchData(products) =>
          match ProductList(products)
          case Ok(cands) => Ok(AlternativesOf(src, m, cands))
          case Err(e) => Err(e)
  }

  /** The scan keeps exactly as many candidates as the sort returns. */
  lemma SortedScanLength(src: Product, m: int, cands: seq<Product>)
    ensures |SortByValue(Scan(SkipFor(src), BetterFor(src), m, cands, []))| == |Scan(SkipFor(src), BetterFor(src), m, cands, [])|
  {
    var kept := Scan(SkipFor(src), BetterFor(src), m, cands, []);
    SortByValueCorrect(kept);
    assert |multiset(SortByValue(kept))| == |multiset(kept)|;
  }

  /** For a positive bound: exactly the first `max_results` eligible
      candidates, stably sorted by ordinal. */
  lemma AlternativesOfPositive(src: Product, m: int, cands: seq<Product>)
    requires m >= 1
    ensures AlternativesOf(src, m, cands) == SortByValue(Take(Filter(EligibleFor(src), cands), m))
  {
    var kept := Scan(SkipFor(src), BetterFor(src), m, cands, []);
    var first := Take(Filter(EligibleFor(src), cands), m);
    assert kept == first by {
      ScanTakesFirst(SkipFor(src), BetterFor(src), m, cands, []);
      FilterEligible(src, cands);
      assert [] + first == first;
    }
    SortedScanLength(src, m, cands);
  }

  /** For a bound of 0 or below: nothing. */
  lemma AlternativesOfNonPositive(src: Product, m: int, cands: seq<Product>)
    requires m <= 0
    ensures AlternativesOf(src, m, cands) == []
  {
    ScanNonPositive(SkipFor(src), BetterFor(src), m, cands);
    SortedScanLength(src, m, cands);
  }

  /** At most `max_results` elements (none for a bound of 0 or below), sorted
      by ordinal, each eligible and drawn from the candidates. */
  lemma AlternativesOfProperties(src: Product, m: int, cands: seq<Product>)
    ensures var r := AlternativesOf(src, m, cands);
      |r| <= Max(0, m) && SortedByValue(r) && multiset(r) <= multiset(cands) &&
      forall x :: x in r ==> Eligible(src, x) && x in cands
  {
    var kept := Scan(SkipFor(src), BetterFor(src), m, cands, []);
    var sorted := SortByValue(kept);
    var r := AlternativesOf(src, m, cands);
    SortByValueCorrect(kept);
    ScanKeeps(SkipFor(src), BetterFor(src), m, cands);
    SubsequenceMultiset(kept, cands);
    SortedScanLength(src, m, cands);
    if m <= 0 {
      AlternativesOfNonPositive(src, m, cands);
    } else {
      assert |kept| <= m by {
        ScanTakesFirst(SkipFor(src), BetterFor(src), m, cands, []);
      }
      assert |multiset(sorted)| == |multiset(kept)|;
      assert r == sorted;
      forall x | x in r
        ensures Eligible(src, x) && x in cands
      {
        assert x in multiset(kept);
        KeepsEligible(src, x);
      }
    }
  }

  /** A source graded A has no strictly better alternative. */
  lemma BestGradeHasNoAlternatives(src: Product, m: int, cands: seq<Product>)
    requires Value(src) == 1
    ensures AlternativesOf(src, m, cands) == []
  {
    if m <= 0 {
      AlternativesOfNonPositive(src, m, cands);
    } else {
      AlternativesOfPositive(src, m, cands);
      forall i | 0 <= i < |cands|
        ensures !EligibleFor(src)(cands[i])
      {
        assert Value(cands[i]) >= 1;
      }
      FilterNone(EligibleFor(src), cands);
      assert Take<Product>([], m) == [];
    }
  }

  /** `find_alternatives(product, max_results)`. */
  method FindAlternatives(product: Product, maxResults: int, search: SearchParams -> CatalogReply)
    returns (r: Result<seq<Product>, PyError>)
    ensures r == Alternatives(product, maxResults, search)
  {
    var term := SearchTerm(product);
    if term.Err? {
      return Err(term.error);
    }
    var searchTerm := term.value;
    if searchTerm == "" {
      return Ok([]);
    }
    var currentNutri := Value(product);
    var params := BuildSearchParams(searchTerm, 50);
    params := params.(sortBy := Some("nutriscore_grade"));
    var reply := search(params);
    if reply.SearchFailed? {
      return Ok([]);
    }
    var listed := ProductList(reply.products);
    if listed.Err? {
      return Err(listed.error);
    }
    var candidates := listed.value;
    var productCode := Identity(product);
    var alternatives: seq<Product> := [];
    for i := 0 to |candidates|
      invariant Scan(SkipFor(product), BetterFor(product), maxResults, candidates, []) ==
        Scan(SkipFor(product), BetterFor(product), maxResults, candidates[i..], alternatives)
    {
      var candidate := candidates[i];
      SuffixStep(candidates, i);
      var candidateCode := Identity(candidate);
      if candidateCode == productCode {
        continue;
      }
      if !Truthy(candidate.productName) || !Truthy(candidate.nutriscoreGrade) {
        continue;
      }
      var candidateNutri := Value(candidate);
      if candidateNutri < currentNutri {
        alternatives := alternatives + [candidate];
      }
      if |alternatives| >= maxResults {
        assert Scan(SkipFor(product), BetterFor(product), maxResults, candidates, []) == alternatives;
        break;
      }
    }
    assert candidates[|candidates|..] == [];
    alternatives := SortByValue(alternatives);
    return Ok(PySlice(alternatives, maxResults));
  }

  /** Whatever the catalog answers, a successful result has at most
      `max_results` alternatives, sorted by ordinal, each strictly better
      than the source, named, graded and not the source itself. An empty
      term, a failed search and a missing product list give `[]`; a term
      error and a `null` product list are raised. */
  lemma AlternativesProperties(src: Product, m: int, search: SearchParams -> CatalogReply)
    ensures var r := Alternatives(src, m, search);
      r.Ok? ==> (|r.value| <= Max(0, m) && SortedByValue(r.value) &&
        forall x :: x in r.value ==>
          Value(x) < Value(src) && Truthy(x.productName) && Truthy(x.nutriscoreGrade) && Identity(x) != Identity(src))
    ensures SearchTerm(src) == Ok("") ==> Alternatives(src, m, search) == Ok([])
    ensures SearchTerm(src).Err? ==> Alternatives(src, m, search) == Err(SearchTerm(src).error)
    ensures SearchTerm(src).Ok? && SearchTerm(src).value != "" ==>
      var reply := search(AlternativesQuery(SearchTerm(src).value));
      (reply.SearchFailed? ==> Alternatives(src, m, search) == Ok([])) &&
      (reply.SearchData? && reply.products.Absent? ==> Alternatives(src, m, search) == Ok([])) &&
      (reply.SearchData? && reply.products.Null? ==> Alternatives(src, m, search) == Err(TypeError))
  {
    match SearchTerm(src)
    case Err(_) =>
    case Ok(term) =>
      if term != "" {
        match search(AlternativesQuery(term))
        case SearchFailed =>
        case SearchData(products) =>
          if products.Val? {
            AlternativesOfProperties(src, m, products.v);
          } else if products.Absent? {
            AlternativesOfProperties(src, m, []);
          }
      }
  }
}
