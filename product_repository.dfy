/** The product table's queries: derived finders and the two hand-written JPQL queries. */
module ProductRepository {
  import opened Wrappers
  import opened JavaText
  import opened Money
  import opened Seqs
  import opened Products
  import opened SqlLike

  /** The product table's key. */
  function ProductKey(p: Product): int
  {
    p.id
  }

  /** `findById`. */
  function FindById(ps: seq<Product>, id: int): Option<Product>
  {
    FindByKey(ps, ProductKey, id)
  }

  /** `save` of a product that is already stored. */
  function Save(ps: seq<Product>, p: Product): seq<Product>
  {
    SaveByKey(ps, ProductKey, p)
  }

  /** `findByCategory`. */
  function FindByCategory(ps: seq<Product>, category: string): (r: seq<Product>)
    ensures forall p :: p in r <==> p in ps && p.category == category
    ensures IsSubsequence(r, ps)
  {
    Filter(ps, (p: Product) => p.category == category)
  }

  /** `findByStockQuantityGreaterThan`: a `null` stock matches no bound. */
  function FindByStockQuantityGreaterThan(ps: seq<Product>, quantity: int): (r: seq<Product>)
    ensures forall p :: p in r <==> p in ps && p.stockQuantity.Some? && p.stockQuantity.value > quantity
    ensures IsSubsequence(r, ps)
  {
    Filter(ps, (p: Product) => p.stockQuantity.Some? && p.stockQuantity.value > quantity)
  }

  /** What `findByStockQuantityGreaterThan(0)` lists is precisely the products with stock on hand. */
  lemma InStockListing(ps: seq<Product>, p: Product)
    ensures p in FindByStockQuantityGreaterThan(ps, 0) <==> p in ps && StockOrZero(p) > 0
  {
  }

  /** `findByNameContainingIgnoreCase`: both sides upper-cased, then a substring match. */
  function FindByNameContainingIgnoreCase(ps: seq<Product>, name: string): seq<Product>
  {
    Filter(ps, (p: Product) => Contains(ToUpperCase(p.name), ToUpperCase(name)))
  }

  /**
   * The `searchProducts` query: the lower-cased name or description is `LIKE` the lower-cased
   * `CONCAT('%', term, '%')`, so `%`, `_` and `\` in the term act as wildcards and escape.
   */
  predicate SearchMatch(p: Product, term: string)
  {
    LikeMatch(ToLowerCase(p.name), ToLowerCase(ContainingPattern(term)))
    || LikeMatch(ToLowerCase(p.description), ToLowerCase(ContainingPattern(term)))
  }

  function SearchProducts(ps: seq<Product>, term: string): (r: seq<Product>)
    ensures forall p :: p in r <==> p in ps && SearchMatch(p, term)
    ensures IsSubsequence(r, ps)
  {
    Filter(ps, (p: Product) => SearchMatch(p, term))
  }

  /** Lower-casing leaves `%`, `_` and `\` alone, so it commutes with wrapping the term in `%`. */
  lemma LowerContainingPattern(t: string)
    ensures ToLowerCase(ContainingPattern(t)) == ContainingPattern(ToLowerCase(t))
    ensures IsPlain(t) ==> IsPlain(ToLowerCase(t))
    ensures '\\' !in t ==> '\\' !in ToLowerCase(t)
  {
    var l, c := ToLowerCase(ContainingPattern(t)), ContainingPattern(ToLowerCase(t));
    assert |l| == |c|;
    forall k | 0 <= k < |l|
      ensures l[k] == c[k]
    {
      if 0 < k < |l| - 1 {
        assert ContainingPattern(t)[k] == t[k - 1];
      }
    }
    if '\\' in ToLowerCase(t) {
      var k :| 0 <= k < |t| && ToLowerCase(t)[k] == '\\';
      assert t[k] in t;
    }
  }

  /** For a term without `%`, `_` or `\`, the search is a case-insensitive substring search. */
  lemma PlainSearchIsSubstringSearch(p: Product, term: string)
    requires IsPlain(term)
    ensures SearchMatch(p, term)
        <==> Contains(ToLowerCase(p.name), ToLowerCase(term)) || Contains(ToLowerCase(p.description), ToLowerCase(term))
  {
    LowerContainingPattern(term);
    PlainTermLikeIsContains(ToLowerCase(p.name), ToLowerCase(term));
    PlainTermLikeIsContains(ToLowerCase(p.description), ToLowerCase(term));
  }

  /** The term `_` is a wildcard: it finds every product with a non-empty name. */
  lemma UnderscoreSearchFindsEveryNamedProduct(ps: seq<Product>, p: Product)
    requires p in ps && p.name != []
    ensures p in SearchProducts(ps, "_")
  {
    LowerContainingPattern("_");
    assert ToLowerCase("_") == "_";
    UnderscoreFindsEveryNonEmpty(ToLowerCase(p.name));
  }

  lemma CharFoldsAgree(a: char, b: char)
    ensures UpperChar(a) == UpperChar(b) <==> LowerChar(a) == LowerChar(b)
  {
  }

  lemma SliceFoldsAgree(s: string, t: string, i: int)
    requires 0 <= i <= |s| - |t|
    ensures ToUpperCase(s)[i..i + |t|] == ToUpperCase(t) <==> ToLowerCase(s)[i..i + |t|] == ToLowerCase(t)
  {
    forall k | 0 <= k < |t|
      ensures UpperChar(s[i + k]) == UpperChar(t[k]) <==> LowerChar(s[i + k]) == LowerChar(t[k])
    {
      CharFoldsAgree(s[i + k], t[k]);
    }
    var us, ut := ToUpperCase(s)[i..i + |t|], ToUpperCase(t);
    var ls, lt := ToLowerCase(s)[i..i + |t|], ToLowerCase(t);
    assert forall k :: 0 <= k < |t| ==> us[k] == UpperChar(s[i + k]) && ut[k] == UpperChar(t[k]);
    assert forall k :: 0 <= k < |t| ==> ls[k] == LowerChar(s[i + k]) && lt[k] == LowerChar(t[k]);
    assert us == ut <==> forall k :: 0 <= k < |t| ==> us[k] == ut[k];
    assert ls == lt <==> forall k :: 0 <= k < |t| ==> ls[k] == lt[k];
  }

  /** Upper-casing both sides and lower-casing both sides find the same ASCII matches. */
  lemma CaseFoldsAgree(s: string, t: string)
    ensures Contains(ToUpperCase(s), ToUpperCase(t)) <==> Contains(ToLowerCase(s), ToLowerCase(t))
  {
    ContainsIff(ToUpperCase(s), ToUpperCase(t));
    ContainsIff(ToLowerCase(s), ToLowerCase(t));
    forall i | 0 <= i <= |s| - |t|
      ensures OccursAt(ToUpperCase(s), ToUpperCase(t), i) <==> OccursAt(ToLowerCase(s), ToLowerCase(t), i)
    {
      SliceFoldsAgree(s, t, i);
    }
  }

  /**
   * Every product the name-only finder returns is also found by the name-or-description search,
   * for any term without a backslash (the finder escapes its term; the search does not).
   */
  lemma NameMatchesAreSearchMatches(ps: seq<Product>, term: string)
    requires '\\' !in term
    ensures forall p :: p in FindByNameContainingIgnoreCase(ps, term) ==> p in SearchProducts(ps, term)
  {
    LowerContainingPattern(term);
    forall p | p in FindByNameContainingIgnoreCase(ps, term)
      ensures p in SearchProducts(ps, term)
    {
      CaseFoldsAgree(p.name, term);
      ContainsIff(ToLowerCase(p.name), ToLowerCase(term));
      var i :| OccursAt(ToLowerCase(p.name), ToLowerCase(term), i);
      OccurrenceMatches(ToLowerCase(p.name), ToLowerCase(term), i);
    }
  }

  /** With a backslash term the name finder can list a product the search misses. */
  lemma BackslashNameMatchMissedBySearch()
    ensures var p := Product(1, "\\", "", None, "", "", None);
      p in FindByNameContainingIgnoreCase([p], "\\") && p !in SearchProducts([p], "\\")
  {
    var p := Product(1, "\\", "", None, "", "", None);
    assert ToUpperCase("\\") == "\\" && ToLowerCase("\\") == "\\" && ToLowerCase("") == "";
    assert "\\" <= "\\";
    assert Contains(ToUpperCase(p.name), ToUpperCase("\\"));
    assert [p][1..] == [];
    LowerContainingPattern("\\");
    BackslashTermMissesItself();
    assert ContainingPattern("\\") == "%\\%";
    assert "%\\%"[1..] == "\\%";
    assert !LikeMatch("", "%\\%");
  }

  /** SQL `BETWEEN`: both bounds included; a `null` price never matches. */
  predicate PriceBetween(p: Product, minPrice: Decimal, maxPrice: Decimal)
  {
    p.price.Some? && CompareTo(minPrice, p.price.value) <= 0 && CompareTo(p.price.value, maxPrice) <= 0
  }

  /** `findByPriceBetween`. */
  function FindByPriceBetween(ps: seq<Product>, minPrice: Decimal, maxPrice: Decimal): seq<Product>
  {
    Filter(ps, (p: Product) => PriceBetween(p, minPrice, maxPrice))
  }

  /** `findByCategoryAndPriceBetween`. */
  function FindByCategoryAndPriceBetween(ps: seq<Product>, category: string, minPrice: Decimal, maxPrice: Decimal): seq<Product>
  {
    Filter(ps, (p: Product) => p.category == category && PriceBetween(p, minPrice, maxPrice))
  }

  /** The combined finder is the price-range finder applied to the category's products. */
  lemma {:induction false} CategoryAndPriceIsComposition(ps: seq<Product>, category: string, minPrice: Decimal, maxPrice: Decimal)
    ensures FindByCategoryAndPriceBetween(ps, category, minPrice, maxPrice)
         == FindByPriceBetween(FindByCategory(ps, category), minPrice, maxPrice)
    decreases |ps|
  {
    if ps != [] {
      CategoryAndPriceIsComposition(ps[1..], category, minPrice, maxPrice);
    }
  }

  /** Strictly ascending, hence free of duplicates. */
  predicate StrictlyIncreasing(cs: seq<string>)
  {
    forall i, j :: 0 <= i < j < |cs| ==> StrLess(cs[i], cs[j])
  }

  /** Adds `c` to an ascending list unless it is already there. */
  function InsertCategory(c: string, cs: seq<string>): (r: seq<string>)
    ensures forall x :: x in r <==> x == c || x in cs
    decreases |cs|
  {
    if cs == [] then [c]
    else if c == cs[0] then cs
    else if StrLess(c, cs[0]) then [c] + cs
    else [cs[0]] + InsertCategory(c, cs[1..])
  }

  lemma {:induction false} InsertCategoryIncreasing(c: string, cs: seq<string>)
    requires StrictlyIncreasing(cs)
    ensures StrictlyIncreasing(InsertCategory(c, cs))
    decreases |cs|
  {
    if cs != [] && c != cs[0] {
      if StrLess(c, cs[0]) {
        forall j | 0 < j < |cs|
          ensures StrLess(c, cs[j])
        {
          StrLessTransitive(c, cs[0], cs[j]);
        }
      } else {
        StrLessTotal(c, cs[0]);
        InsertCategoryIncreasing(c, cs[1..]);
        var rest := InsertCategory(c, cs[1..]);
        forall j | 0 <= j < |rest|
          ensures StrLess(cs[0], rest[j])
        {
          assert rest[j] in rest;
        }
      }
    }
  }

  /** The `findAllCategories` query: each category once, in ascending order. */
  function FindAllCategories(ps: seq<Product>): (r: seq<string>)
    ensures StrictlyIncreasing(r)
    ensures forall c :: c in r <==> exists p :: p in ps && p.category == c
    decreases |ps|
  {
    if ps == [] then []
    else
      var init := ps[..|ps| - 1];
      var last := ps[|ps| - 1];
      var r := FindAllCategories(init);
      InsertCategoryIncreasing(last.category, r);
      assert forall p :: p in ps <==> p in init || p == last by {
        assert ps == init + [last];
      }
      InsertCategory(last.category, r)
  }
}
