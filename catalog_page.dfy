/**
 * The catalog page: loads the product feed, normalises photo paths, derives the
 * colour and category vocabularies, filters the products by free text, colours
 * and categories, and groups the visible products into category sections.
 */
module CatalogPage {
  import opened Wrappers
  import opened Text
  import AssetPath
  import Feed

  /** One entry of `colores`. */
  datatype ColorOption = ColorOption(color: string, precio: real)

  /**
   * A product record. A field that is missing, or that does not have the type the
   * page tests for (`typeof … === 'string'`, `Array.isArray`), is `None`.
   */
  datatype Product = Product(
    id: Option<int>,
    nombre: Option<string>,
    descripcion: Option<string>,
    categoria: Option<string>,
    colores: Option<seq<ColorOption>>,
    fotos: Option<seq<string>>)

  /** `xs` is `ys` with some elements dropped and the rest kept in order. */
  predicate IsSubsequence<T(==)>(xs: seq<T>, ys: seq<T>)
    decreases |ys|
  {
    |xs| == 0 ||
    (|ys| > 0 && ((xs[0] == ys[0] && IsSubsequence(xs[1..], ys[1..])) || IsSubsequence(xs, ys[1..])))
  }

  // ---------------------------------------------------------------------------
  // Photo paths

  /**
   * Every photo path goes through the asset-path rule, in order; a `fotos` that
   * is not an array is kept as it is, and every other field is copied unchanged.
   */
  function NormalizePhotos(basePath: string, p: Product): (r: Product)
    ensures r.(fotos := p.fotos) == p
    ensures p.fotos.None? ==> r.fotos.None?
    ensures p.fotos.Some? ==>
              r.fotos.Some? && |r.fotos.value| == |p.fotos.value| &&
              forall i :: 0 <= i < |p.fotos.value| ==>
                r.fotos.value[i] == AssetPath.Normalize(basePath, p.fotos.value[i])
  {
    match p.fotos
    case None => p
    case Some(paths) =>
      p.(fotos := Some(seq(|paths|, i requires 0 <= i < |paths| => AssetPath.Normalize(basePath, paths[i]))))
  }

  /** `rawData.map(…)`: one processed record per raw record, in the same order. */
  function ProcessData(basePath: string, raw: seq<Product>): (r: seq<Product>)
    ensures |r| == |raw|
    ensures forall i :: 0 <= i < |raw| ==> r[i] == NormalizePhotos(basePath, raw[i])
  {
    seq(|raw|, i requires 0 <= i < |raw| => NormalizePhotos(basePath, raw[i]))
  }

  // ---------------------------------------------------------------------------
  // Facet vocabularies

  predicate HasColor(p: Product, c: string)
  {
    p.colores.Some? && exists j :: 0 <= j < |p.colores.value| && p.colores.value[j].color == c
  }

  function ProductColors(p: Product): set<string>
  {
    if p.colores.Some? then set j | 0 <= j < |p.colores.value| :: p.colores.value[j].color else {}
  }

  /** The colours a `forEach` over the first `|ps|` products adds to `colorNames`. */
  function ColorSet(ps: seq<Product>): set<string>
  {
    if |ps| == 0 then {} else ColorSet(ps[..|ps| - 1]) + ProductColors(ps[|ps| - 1])
  }

  /** A string `categoria` whose trim is non-empty. */
  predicate NamesCategory(p: Product, c: string)
  {
    p.categoria == Some(c) && !IsBlank(c)
  }

  function ProductCategories(p: Product): set<string>
  {
    if p.categoria.Some? && !IsBlank(p.categoria.value) then {p.categoria.value} else {}
  }

  function CategorySet(ps: seq<Product>): set<string>
  {
    if |ps| == 0 then {} else CategorySet(ps[..|ps| - 1]) + ProductCategories(ps[|ps| - 1])
  }

  /** The colour vocabulary holds exactly the `colores[].color` values of all records. */
  lemma {:induction false} ColorSetMembers(ps: seq<Product>, c: string)
    ensures c in ColorSet(ps) <==> exists i :: 0 <= i < |ps| && HasColor(ps[i], c)
  {
    if |ps| > 0 {
      var init, last := ps[..|ps| - 1], ps[|ps| - 1];
      ColorSetMembers(init, c);
      if c in ProductColors(last) {
        assert HasColor(last, c);
      }
      if HasColor(last, c) {
        var j :| 0 <= j < |last.colores.value| && last.colores.value[j].color == c;
        assert c in ProductColors(last);
      }
      if exists i :: 0 <= i < |init| && HasColor(init[i], c) {
        var i :| 0 <= i < |init| && HasColor(init[i], c);
        assert ps[i] == init[i];
      }
      if exists i :: 0 <= i < |ps| && HasColor(ps[i], c) {
        var i :| 0 <= i < |ps| && HasColor(ps[i], c);
        if i < |init| {
          assert init[i] == ps[i];
        }
      }
    }
  }

  /** The category vocabulary holds exactly the string categories that are not blank. */
  lemma {:induction false} CategorySetMembers(ps: seq<Product>, c: string)
    ensures c in CategorySet(ps) <==> exists i :: 0 <= i < |ps| && NamesCategory(ps[i], c)
  {
    if |ps| > 0 {
      var init, last := ps[..|ps| - 1], ps[|ps| - 1];
      CategorySetMembers(init, c);
      if exists i :: 0 <= i < |init| && NamesCategory(init[i], c) {
        var i :| 0 <= i < |init| && NamesCategory(init[i], c);
        assert ps[i] == init[i];
      }
      if exists i :: 0 <= i < |ps| && NamesCategory(ps[i], c) {
        var i :| 0 <= i < |ps| && NamesCategory(ps[i], c);
        if i < |init| {
          assert init[i] == ps[i];
        }
      }
    }
  }

  /**
   * The `forEach` that fills the `colorNames` and `categoryNames` sets, followed by
   * `Array.from(…).sort()` on each.
   */
  method DeriveFacets(products: seq<Product>) returns (colors: seq<string>, categories: seq<string>)
    ensures StrictlySorted(colors) && forall c :: c in colors <==> c in ColorSet(products)
    ensures StrictlySorted(categories) && forall c :: c in categories <==> c in CategorySet(products)
  {
    var colorNames: set<string> := {};
    var categoryNames: set<string> := {};
    for i := 0 to |products|
      invariant colorNames == ColorSet(products[..i])
      invariant categoryNames == CategorySet(products[..i])
    {
      var p := products[i];
      assert products[..i + 1][..i] == products[..i];
      if p.colores.Some? {
        var cs := p.colores.value;
        for j := 0 to |cs|
          invariant colorNames == ColorSet(products[..i]) + set k | 0 <= k < j :: cs[k].color
        {
          colorNames := colorNames + {cs[j].color};
        }
      }
      if p.categoria.Some? && !IsBlank(p.categoria.value) {
        categoryNames := categoryNames + {p.categoria.value};
      }
    }
    assert products[..|products|] == products;
    colors := SortedElements(colorNames);
    categories := SortedElements(categoryNames);
  }

  // ---------------------------------------------------------------------------
  // Filtering

  datatype FilterState = FilterState(searchTerm: string, selectedColors: seq<string>, selectedCategories: seq<string>)

  /** A string field, or '' when it is missing or not a string. */
  function TextOf(field: Option<string>): string
  {
    if field.Some? then field.value else ""
  }

  /** `product.colores.map(cObj => cObj.color)`, or [] when `colores` is not an array. */
  function ColorNames(p: Product): seq<string>
  {
    if p.colores.Some? then seq(|p.colores.value|, j requires 0 <= j < |p.colores.value| => p.colores.value[j].color) else []
  }

  predicate MatchesSearch(p: Product, term: string)
  {
    term == "" ||
    Contains(Lower(TextOf(p.nombre)), Lower(term)) ||
    Contains(Lower(TextOf(p.descripcion)), Lower(term))
  }

  predicate MatchesColors(p: Product, selected: seq<string>)
  {
    |selected| == 0 || exists c :: c in ColorNames(p) && c in selected
  }

  predicate MatchesCategories(p: Product, selected: seq<string>)
  {
    |selected| == 0 || (TextOf(p.categoria) != "" && TextOf(p.categoria) in selected)
  }

  predicate Matches(p: Product, f: FilterState)
  {
    MatchesSearch(p, f.searchTerm) && MatchesColors(p, f.selectedColors) && MatchesCategories(p, f.selectedCategories)
  }

  /** `products.filter(…)`: the matching products, in their original order. */
  function FilterProducts(ps: seq<Product>, f: FilterState): (r: seq<Product>)
    ensures IsSubsequence(r, ps)
    ensures forall p :: p in r <==> p in ps && Matches(p, f)
    ensures forall p :: multiset(r)[p] == if Matches(p, f) then multiset(ps)[p] else 0
  {
    if |ps| == 0 then []
    else
      var rest := FilterProducts(ps[1..], f);
      assert ps == [ps[0]] + ps[1..];
      if Matches(ps[0], f) then [ps[0]] + rest else rest
  }

  /** With no search term and no selected colour or category, every product is shown. */
  lemma {:induction false} FilterWithoutCriteria(ps: seq<Product>, f: FilterState)
    requires f.searchTerm == "" && |f.selectedColors| == 0 && |f.selectedCategories| == 0
    ensures FilterProducts(ps, f) == ps
  {
    if |ps| > 0 {
      FilterWithoutCriteria(ps[1..], f);
      assert ps == [ps[0]] + ps[1..];
    }
  }

  /** Filtering an already filtered list changes nothing. */
  lemma {:induction false} FilterIdempotent(ps: seq<Product>, f: FilterState)
    ensures FilterProducts(FilterProducts(ps, f), f) == FilterProducts(ps, f)
  {
    if |ps| > 0 {
      FilterIdempotent(ps[1..], f);
      var rest := FilterProducts(ps[1..], f);
      if Matches(ps[0], f) {
        assert ([ps[0]] + rest)[1..] == rest;
      }
    }
  }

  /** The search ignores ASCII case: a term and its lower-case form select the same products. */
  lemma SearchIsCaseInsensitive(p: Product, term: string)
    ensures MatchesSearch(p, term) <==> MatchesSearch(p, Lower(term))
  {
    LowerIdempotent(term);
  }

  /** A product is found by its own name, written in any ASCII case. */
  lemma SearchFindsName(p: Product, term: string)
    requires p.nombre.Some? && Lower(term) == Lower(p.nombre.value)
    ensures MatchesSearch(p, term)
  {
    assert Contains(Lower(TextOf(p.nombre)), Lower(term));
  }

  /**
   * The search is a case-folded substring test with no accent folding:
   * "lamp" does not find "Lámpara".
   */
  lemma SearchDoesNotFoldAccents(p: Product)
    requires p.nombre == Some("Lámpara") && p.descripcion.None?
    ensures !MatchesSearch(p, "lamp")
  {
    var hay := Lower("Lámpara");
    assert hay[1] == 'á';
    var needle := Lower("lamp");
    assert needle == "lamp";
    assert |hay| == 7 && hay[0] == 'l' && hay[1] == 'á' && hay[2] == 'm' && hay[3] == 'p';
    ContainsIff(hay, needle);
    forall k | OccursAt(hay, needle, k)
      ensures false
    {
    }
  }

  // ---------------------------------------------------------------------------
  // Grouping

  const Otros := "Otros"

  /** The bucket a product is grouped under: its `categoria`, or "Otros" when that is missing or blank. */
  function EffectiveCategory(p: Product): string
  {
    if p.categoria.Some? && !IsBlank(p.categoria.value) then p.categoria.value else Otros
  }

  /** The products of `ps` grouped under `k`, in their original order. */
  function Bucket(ps: seq<Product>, k: string): (r: seq<Product>)
    ensures IsSubsequence(r, ps)
    ensures forall p :: p in r <==> p in ps && EffectiveCategory(p) == k
  {
    if |ps| == 0 then []
    else
      var rest := Bucket(ps[1..], k);
      if EffectiveCategory(ps[0]) == k then [ps[0]] + rest else rest
  }

  /** A bucket keeps every copy of each of its products: none is dropped or repeated. */
  lemma {:induction false} BucketCounts(ps: seq<Product>, k: string, p: Product)
    ensures multiset(Bucket(ps, k))[p] == if EffectiveCategory(p) == k then multiset(ps)[p] else 0
  {
    if |ps| > 0 {
      BucketCounts(ps[1..], k, p);
      assert ps == [ps[0]] + ps[1..];
    }
  }

  lemma {:induction false} BucketSnoc(ps: seq<Product>, x: Product, k: string)
    ensures Bucket(ps + [x], k) == Bucket(ps, k) + (if EffectiveCategory(x) == k then [x] else [])
  {
    if |ps| > 0 {
      assert (ps + [x])[1..] == ps[1..] + [x];
      BucketSnoc(ps[1..], x, k);
    } else {
      assert [x][1..] == [];
    }
  }

  /** A record whose `categoria` is empty or blank always lands in "Otros". */
  lemma BlankCategoryGoesToOtros(ps: seq<Product>, p: Product)
    requires p in ps && (p.categoria.None? || IsBlank(p.categoria.value))
    ensures p in Bucket(ps, Otros)
    ensures forall k :: k != Otros ==> p !in Bucket(ps, k)
  {
  }

  /** The total size of the buckets named by `keys`. */
  function BucketSizes(ps: seq<Product>, keys: seq<string>): nat
  {
    if |keys| == 0 then 0 else |Bucket(ps, keys[0])| + BucketSizes(ps, keys[1..])
  }

  function Occurrences(keys: seq<string>, c: string): nat
  {
    if |keys| == 0 then 0 else (if keys[0] == c then 1 else 0) + Occurrences(keys[1..], c)
  }

  lemma {:induction false} OccurrencesDistinct(keys: seq<string>, c: string)
    requires Distinct(keys)
    ensures Occurrences(keys, c) == if c in keys then 1 else 0
  {
    if |keys| > 0 {
      assert Distinct(keys[1..]);
      OccurrencesDistinct(keys[1..], c);
      if keys[0] == c {
        assert c !in keys[1..];
      }
    }
  }

  lemma {:induction false} BucketSizesCons(ps: seq<Product>, keys: seq<string>)
    requires |ps| > 0
    ensures BucketSizes(ps, keys) == Occurrences(keys, EffectiveCategory(ps[0])) + BucketSizes(ps[1..], keys)
  {
    if |keys| > 0 {
      BucketSizesCons(ps, keys[1..]);
    }
  }

  lemma {:induction false} BucketSizesEmpty(keys: seq<string>)
    ensures BucketSizes([], keys) == 0
  {
    if |keys| > 0 {
      BucketSizesEmpty(keys[1..]);
    }
  }

  /** Buckets over distinct keys that cover every category partition the list: their sizes add up to its length. */
  lemma {:induction false} BucketSizesPartition(ps: seq<Product>, keys: seq<string>)
    requires Distinct(keys)
    requires forall p :: p in ps ==> EffectiveCategory(p) in keys
    ensures BucketSizes(ps, keys) == |ps|
  {
    if |ps| == 0 {
      BucketSizesEmpty(keys);
    } else {
      BucketSizesCons(ps, keys);
      OccurrencesDistinct(keys, EffectiveCategory(ps[0]));
      BucketSizesPartition(ps[1..], keys);
    }
  }

  /** The total size of the groups named by `keys`. */
  function GroupSizes(groups: map<string, seq<Product>>, keys: seq<string>): nat
    requires forall k :: k in keys ==> k in groups
  {
    if |keys| == 0 then 0 else |groups[keys[0]]| + GroupSizes(groups, keys[1..])
  }

  lemma {:induction false} GroupSizesAreBucketSizes(ps: seq<Product>, groups: map<string, seq<Product>>, keys: seq<string>)
    requires forall k :: k in keys ==> k in groups && groups[k] == Bucket(ps, k)
    ensures GroupSizes(groups, keys) == BucketSizes(ps, keys)
  {
    if |keys| > 0 {
      GroupSizesAreBucketSizes(ps, groups, keys[1..]);
    }
  }

  /** The effective categories that occur in a list of products. */
  function Categories(ps: seq<Product>): set<string>
  {
    set p | p in ps :: EffectiveCategory(p)
  }

  /** Pushing one more product onto the groups of a list gives the groups of the longer list. */
  lemma GroupStep(prefix: seq<Product>, x: Product, groups: map<string, seq<Product>>)
    requires groups.Keys == Categories(prefix)
    requires forall k :: k in groups ==> groups[k] == Bucket(prefix, k)
    ensures var c := EffectiveCategory(x);
            var groups' := groups[c := (if c in groups then groups[c] else []) + [x]];
            && groups'.Keys == Categories(prefix + [x])
            && (forall k :: k in groups' ==> groups'[k] == Bucket(prefix + [x], k))
  {
    var c := EffectiveCategory(x);
    var grown := groups[c := (if c in groups then groups[c] else []) + [x]];
    CategoriesSnoc(prefix, x);
    if c !in groups {
      BucketOfAbsent(prefix, c);
    }
    BucketSnoc(prefix, x, c);
    forall k | k in grown
      ensures grown[k] == Bucket(prefix + [x], k)
    {
      BucketSnoc(prefix, x, k);
    }
  }

  lemma CategoriesSnoc(ps: seq<Product>, x: Product)
    ensures Categories(ps + [x]) == Categories(ps) + {EffectiveCategory(x)}
  {
    assert forall p :: p in ps + [x] <==> p in ps || p == x;
  }

  /** A category that does not occur has an empty bucket. */
  lemma {:induction false} BucketOfAbsent(ps: seq<Product>, k: string)
    requires forall p :: p in ps ==> EffectiveCategory(p) != k
    ensures Bucket(ps, k) == []
  {
    if |ps| > 0 {
      BucketOfAbsent(ps[1..], k);
    }
  }

  /**
   * `groupProducts`: the `reduce` that pushes each product onto the array of its
   * category, creating the array on first use. `keys` lists the categories in the
   * order they were first seen.
   */
  method GroupProducts(ps: seq<Product>) returns (groups: map<string, seq<Product>>, keys: seq<string>)
    ensures Distinct(keys) && forall k :: k in keys <==> k in groups
    ensures forall k :: k in groups <==> exists p :: p in ps && EffectiveCategory(p) == k
    ensures forall k :: k in groups ==> groups[k] == Bucket(ps, k) && |groups[k]| > 0
    ensures GroupSizes(groups, keys) == |ps|
  {
    groups := map[];
    keys := [];
    for i := 0 to |ps|
      invariant Distinct(keys) && forall k :: k in keys <==> k in groups
      invariant groups.Keys == Categories(ps[..i])
      invariant forall k :: k in groups ==> groups[k] == Bucket(ps[..i], k)
    {
      var c := EffectiveCategory(ps[i]);
      assert ps[..i + 1] == ps[..i] + [ps[i]];
      GroupStep(ps[..i], ps[i], groups);
      if c !in groups {
        groups := groups[c := []];
        keys := keys + [c];
      }
      groups := groups[c := groups[c] + [ps[i]]];
    }
    assert ps[..|ps|] == ps;
    forall k | k in groups
      ensures |groups[k]| > 0
    {
      var p :| p in ps && EffectiveCategory(p) == k;
      assert p in Bucket(ps, k);
    }
    GroupSizesAreBucketSizes(ps, groups, keys);
    BucketSizesPartition(ps, keys);
  }

  /** Rendered sections are in strictly increasing category order. */
  predicate SectionsSorted(sections: seq<(string, seq<Product>)>)
  {
    forall i, j :: 0 <= i < j < |sections| ==> LexLess(sections[i].0, sections[j].0)
  }

  /**
   * `Object.entries(groupedProducts).sort(…)` and the skipping of empty groups at
   * render time: one section per non-empty group, sorted by category name.
   */
  method Sections(groups: map<string, seq<Product>>) returns (sections: seq<(string, seq<Product>)>)
    ensures SectionsSorted(sections)
    ensures forall s :: s in sections ==> s.0 in groups && s.1 == groups[s.0] && |s.1| > 0
    ensures forall k :: k in groups && |groups[k]| > 0 ==> exists s :: s in sections && s.0 == k
  {
    var names := SortedElements(groups.Keys);
    sections := [];
    for i := 0 to |names|
      invariant SectionsSorted(sections)
      invariant forall s :: s in sections ==> s.0 in groups && s.1 == groups[s.0] && |s.1| > 0
      invariant forall s :: s in sections ==> s.0 in names[..i]
      invariant forall k :: k in names[..i] && |groups[k]| > 0 ==> exists s :: s in sections && s.0 == k
    {
      var k := names[i];
      if |groups[k]| > 0 {
        forall s | s in sections
          ensures LexLess(s.0, k)
        {
          var j :| 0 <= j < i && names[j] == s.0;
        }
        var section := (k, groups[k]);
        assert section in sections + [section];
        sections := sections + [section];
      }
      assert names[..i + 1] == names[..i] + [k];
    }
    assert names[..|names|] == names;
  }

  // ---------------------------------------------------------------------------
  // Facet toggles

  /** `selected.filter(c => c !== name)`. */
  function RemoveAll(selected: seq<string>, name: string): (r: seq<string>)
    ensures forall c :: c in r <==> c in selected && c != name
  {
    if |selected| == 0 then []
    else (if selected[0] == name then [] else [selected[0]]) + RemoveAll(selected[1..], name)
  }

  /** `handleColorToggle` / `handleCategoryToggle`. */
  function Toggle(selected: seq<string>, name: string): (r: seq<string>)
    ensures name in r <==> name !in selected
    ensures forall c :: c != name ==> (c in r <==> c in selected)
  {
    if name in selected then RemoveAll(selected, name) else selected + [name]
  }

  /** Toggling a name twice restores the original membership. */
  lemma ToggleTwiceSameMembers(selected: seq<string>, name: string)
    ensures forall c :: c in Toggle(Toggle(selected, name), name) <==> c in selected
  {
  }

  lemma {:induction false} RemoveAllAbsent(selected: seq<string>, name: string)
    requires name !in selected
    ensures RemoveAll(selected + [name], name) == selected
  {
    if |selected| == 0 {
      assert [name][1..] == [];
    } else {
      assert (selected + [name])[1..] == selected[1..] + [name];
      RemoveAllAbsent(selected[1..], name);
      assert selected == [selected[0]] + selected[1..];
    }
  }

  /** Selecting a name that was not selected and then deselecting it gives back the same list. */
  lemma ToggleTwiceRestores(selected: seq<string>, name: string)
    requires name !in selected
    ensures Toggle(Toggle(selected, name), name) == selected
  {
    RemoveAllAbsent(selected, name);
  }

  // ---------------------------------------------------------------------------
  // Page state

  class Page {
    const basePath: string
    var products: seq<Product>
    var filteredProducts: seq<Product>
    var groupedProducts: map<string, seq<Product>>
    var isLoading: bool
    var searchTerm: string
    var selectedColors: seq<string>
    var availableColors: seq<string>
    var selectedCategories: seq<string>
    var availableCategories: seq<string>
    var error: Option<Feed.LoadError>

    function Filter(): FilterState
      reads this
    {
      FilterState(searchTerm, selectedColors, selectedCategories)
    }

    /** The derived views agree with the products and the current filter. */
    ghost predicate Valid()
      reads this
    {
      && filteredProducts == FilterProducts(products, Filter())
      && (forall k :: k in groupedProducts <==> exists p :: p in filteredProducts && EffectiveCategory(p) == k)
      && (forall k :: k in groupedProducts ==> groupedProducts[k] == Bucket(filteredProducts, k))
      && StrictlySorted(availableColors)
      && StrictlySorted(availableCategories)
    }

    constructor(basePath: string)
      ensures Valid()
      ensures this.basePath == basePath && products == [] && filteredProducts == [] && groupedProducts == map[]
      ensures isLoading && searchTerm == "" && selectedColors == [] && selectedCategories == []
      ensures availableColors == [] && availableCategories == [] && error.None?
    {
      this.basePath := basePath;
      products, filteredProducts, groupedProducts := [], [], map[];
      isLoading, searchTerm := true, "";
      selectedColors, availableColors, selectedCategories, availableCategories := [], [], [], [];
      error := None;
    }

    /** The filter-and-group effect, run whenever the products or the filter change. */
    method Refilter()
      requires StrictlySorted(availableColors) && StrictlySorted(availableCategories)
      modifies this
      ensures Valid()
      ensures forall k :: k in groupedProducts ==> |groupedProducts[k]| > 0
      ensures products == [] ==> filteredProducts == [] && groupedProducts == map[]
      ensures products == old(products) && Filter() == old(Filter()) && error == old(error)
      ensures isLoading == old(isLoading)
      ensures availableColors == old(availableColors) && availableCategories == old(availableCategories)
    {
      filteredProducts := FilterProducts(products, Filter());
      var keys;
      groupedProducts, keys := GroupProducts(filteredProducts);
      if products == [] {
        assert groupedProducts.Keys == {};
      }
    }

    /** The start of the load effect. */
    method BeginLoad()
      requires Valid()
      modifies this
      ensures Valid() && isLoading && error.None?
      ensures products == old(products) && Filter() == old(Filter())
      ensures filteredProducts == old(filteredProducts) && groupedProducts == old(groupedProducts)
      ensures availableColors == old(availableColors) && availableCategories == old(availableCategories)
    {
      isLoading := true;
      error := None;
    }

    /** The settled fetch: records with normalised photos and fresh vocabularies, or an error and no products. */
    method FinishLoad(resp: Feed.Response<Product>)
      requires Valid()
      modifies this
      ensures Valid() && !isLoading && Filter() == old(Filter())
      ensures Feed.Decode(resp).Success? ==>
                && products == ProcessData(basePath, Feed.Decode(resp).value) && error == old(error)
                && (forall c :: c in availableColors <==> c in ColorSet(products))
                && (forall c :: c in availableCategories <==> c in CategorySet(products))
      ensures Feed.Decode(resp).Failure? ==>
                && products == [] && filteredProducts == [] && groupedProducts == map[]
                && error == Some(Feed.Decode(resp).error)
                && availableColors == old(availableColors) && availableCategories == old(availableCategories)
    {
      var decoded := Feed.Decode(resp);
      if decoded.Success? {
        products := ProcessData(basePath, decoded.value);
        availableColors, availableCategories := DeriveFacets(products);
      } else {
        error := Some(decoded.error);
        products := [];
      }
      isLoading := false;
      Refilter();
    }

    method SetSearchTerm(term: string)
      requires Valid()
      modifies this
      ensures Valid() && searchTerm == term
      ensures selectedColors == old(selectedColors) && selectedCategories == old(selectedCategories)
      ensures products == old(products) && error == old(error) && isLoading == old(isLoading)
      ensures availableColors == old(availableColors) && availableCategories == old(availableCategories)
    {
      searchTerm := term;
      Refilter();
    }

    method ToggleColor(colorName: string)
      requires Valid()
      modifies this
      ensures Valid() && selectedColors == Toggle(old(selectedColors), colorName)
      ensures searchTerm == old(searchTerm) && selectedCategories == old(selectedCategories)
      ensures products == old(products) && error == old(error) && isLoading == old(isLoading)
      ensures availableColors == old(availableColors) && availableCategories == old(availableCategories)
    {
      selectedColors := Toggle(selectedColors, colorName);
      Refilter();
    }

    method ToggleCategory(categoryName: string)
      requires Valid()
      modifies this
      ensures Valid() && selectedCategories == Toggle(old(selectedCategories), categoryName)
      ensures searchTerm == old(searchTerm) && selectedColors == old(selectedColors)
      ensures products == old(products) && error == old(error) && isLoading == old(isLoading)
      ensures availableColors == old(availableColors) && availableCategories == old(availableCategories)
    {
      selectedCategories := Toggle(selectedCategories, categoryName);
      Refilter();
    }
  }
}
