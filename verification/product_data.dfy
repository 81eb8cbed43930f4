/**
 * Products and their specifications as the product repository stores them,
 * the request bodies it receives, the search filter and ordering, and the
 * replacement of a product's specification set on update.
 */
module ProductData {
  import opened Common

  /** A product row; `createdAt` is the insertion time, prices are in cents. */
  datatype Product = Product(
    id: int,
    name: string,
    description: Option<string>,
    price: int,
    category: string,
    imageUrl: Option<string>,
    createdAt: int)

  /** The unique key of a Specification row: (productId, name). */
  datatype SpecKey = SpecKey(productId: int, name: string)

  /** A `{ name, value }` entry of a request's `specifications` list. */
  datatype SpecDto = SpecDto(name: string, value: string)

  /** The body of a create request. */
  datatype CreateProductDto = CreateProductDto(
    name: string,
    description: Option<string>,
    price: int,
    category: string,
    imageUrl: Option<string>,
    specifications: Option<seq<SpecDto>>)

  /** The body of an update request: every field may be absent (undefined). */
  datatype ProductPatch = ProductPatch(
    name: Option<string>,
    description: Option<string>,
    price: Option<int>,
    category: Option<string>,
    imageUrl: Option<string>,
    specifications: Option<seq<SpecDto>>)

  /** A search query; every field may be absent. */
  datatype SearchQuery = SearchQuery(
    name: Option<string>,
    category: Option<string>,
    description: Option<string>,
    minPrice: Option<int>,
    maxPrice: Option<int>)

  /** A product with its specifications (name to value), as `include: { specifications: true }` returns it. */
  datatype ProductView = ProductView(product: Product, specifications: map<string, string>)

  // ---------------------------------------------------------------------
  // Search

  /** A string filter is active only for a present, non-empty (truthy) string. */
  predicate ActiveText(f: Option<string>) {
    f.Some? && f.value != ""
  }

  /** A price bound is active only for a present, non-zero (truthy) number. */
  predicate ActiveBound(b: Option<int>) {
    b.Some? && b.value != 0
  }

  /**
   * The `where` clause of `search`: the conjunction of the active filters.
   * A query with no active filter matches every product; an active
   * description filter never matches a null description; crossed price
   * bounds match nothing.
   */
  predicate Matches(p: Product, q: SearchQuery): (r: bool)
    ensures (&& !ActiveText(q.name) && !ActiveText(q.category) && !ActiveText(q.description)
             && !ActiveBound(q.minPrice) && !ActiveBound(q.maxPrice)) ==> r
    ensures ActiveText(q.description) && p.description.None? ==> !r
    ensures ActiveBound(q.minPrice) && ActiveBound(q.maxPrice) && q.minPrice.value > q.maxPrice.value ==> !r
    ensures r && ActiveText(q.name) ==> |q.name.value| <= |p.name|
  {
    && (ActiveText(q.name) ==> Contains(p.name, q.name.value))
    && (ActiveText(q.category) ==> Contains(p.category, q.category.value))
    && (ActiveText(q.description) ==> p.description.Some? && Contains(p.description.value, q.description.value))
    && (ActiveBound(q.minPrice) ==> p.price >= q.minPrice.value)
    && (ActiveBound(q.maxPrice) ==> p.price <= q.maxPrice.value)
  }

  /** The products that satisfy the query, in table order. */
  function Filter(products: seq<Product>, q: SearchQuery): (r: seq<Product>)
    ensures forall p {:trigger p in r} :: p in r <==> p in products && Matches(p, q)
  {
    if products == [] then []
    else if Matches(products[0], q) then [products[0]] + Filter(products[1..], q)
    else Filter(products[1..], q)
  }

  /** `orderBy: { createdAt: 'desc' }`. */
  ghost predicate NewestFirst(s: seq<Product>) {
    forall i, j :: 0 <= i < j < |s| ==> s[i].createdAt >= s[j].createdAt
  }

  /** Putting a product in front of a newest-first list of no newer products keeps it newest-first. */
  lemma ConsNewestFirst(h: Product, s: seq<Product>)
    requires NewestFirst(s)
    requires forall x :: x in s ==> x.createdAt <= h.createdAt
    ensures NewestFirst([h] + s)
  {
    forall i, j | 0 <= i < j < |[h] + s|
      ensures ([h] + s)[i].createdAt >= ([h] + s)[j].createdAt
    {
      if i == 0 {
        assert ([h] + s)[j] == s[j - 1];
      } else {
        assert ([h] + s)[i] == s[i - 1];
        assert ([h] + s)[j] == s[j - 1];
      }
    }
  }

  /** The head of a newest-first list is its newest product, and its tail is newest first. */
  lemma HeadIsNewest(sorted: seq<Product>)
    requires NewestFirst(sorted) && sorted != []
    ensures sorted == [sorted[0]] + sorted[1..]
    ensures NewestFirst(sorted[1..])
    ensures forall x :: x in sorted ==> x.createdAt <= sorted[0].createdAt
  {
    forall x | x in sorted ensures x.createdAt <= sorted[0].createdAt {
      var j :| 0 <= j < |sorted| && sorted[j] == x;
    }
    forall i, j | 0 <= i < j < |sorted[1..]| ensures sorted[1..][i].createdAt >= sorted[1..][j].createdAt {
      assert sorted[1..][i] == sorted[i + 1] && sorted[1..][j] == sorted[j + 1];
    }
  }

  /** Inserting a product into a newest-first list. */
  function Insert(p: Product, sorted: seq<Product>): (r: seq<Product>)
    requires NewestFirst(sorted)
    ensures NewestFirst(r)
    ensures multiset(r) == multiset(sorted) + multiset{p}
    ensures forall x {:trigger x in r} :: x in r ==> x in sorted || x == p
    decreases |sorted|
  {
    if sorted == [] then [p]
    else
      HeadIsNewest(sorted);
      if p.createdAt >= sorted[0].createdAt then
        ConsNewestFirst(p, sorted);
        [p] + sorted
      else
        var rest := Insert(p, sorted[1..]);
        ConsNewestFirst(sorted[0], rest);
        [sorted[0]] + rest
  }

  function SortNewestFirst(s: seq<Product>): (r: seq<Product>)
    ensures NewestFirst(r)
    ensures multiset(r) == multiset(s)
  {
    if s == [] then []
    else
      assert s == [s[0]] + s[1..];
      Insert(s[0], SortNewestFirst(s[1..]))
  }

  /** `search`: the matching products, newest first. */
  function Search(products: seq<Product>, q: SearchQuery): (r: seq<Product>)
    ensures NewestFirst(r)
    ensures multiset(r) == multiset(Filter(products, q))
    ensures forall p :: p in r <==> p in products && Matches(p, q)
  {
    var f := Filter(products, q);
    var r := SortNewestFirst(f);
    assert forall p :: p in r <==> p in multiset(r);
    assert forall p :: p in f <==> p in multiset(f);
    r
  }

  /** A price bound of 0 imposes no constraint: it filters exactly like an absent bound. */
  lemma ZeroBoundIsNoBound(p: Product, q: SearchQuery)
    ensures Matches(p, q.(minPrice := Some(0))) == Matches(p, q.(minPrice := None))
    ensures Matches(p, q.(maxPrice := Some(0))) == Matches(p, q.(maxPrice := None))
  {
  }

  /** An empty string filter imposes no constraint either. */
  lemma EmptyTextIsNoFilter(p: Product, q: SearchQuery)
    ensures Matches(p, q.(name := Some(""))) == Matches(p, q.(name := None))
    ensures Matches(p, q.(category := Some(""))) == Matches(p, q.(category := None))
    ensures Matches(p, q.(description := Some(""))) == Matches(p, q.(description := None))
  {
  }

  /** The empty query returns every product. */
  lemma EmptyQueryMatchesAll(products: seq<Product>)
    ensures forall p :: p in Search(products, SearchQuery(None, None, None, None, None)) <==> p in products
  {
  }

  /** A description filter never matches a product without a description. */
  lemma DescriptionFilterSkipsNull(p: Product, q: SearchQuery)
    requires ActiveText(q.description) && p.description.None?
    ensures !Matches(p, q)
  {
  }

  // ---------------------------------------------------------------------
  // Products in a table

  /** Product ids grow along the table, as an autoincrement key does. */
  ghost predicate ProductIdsIncreasing(products: seq<Product>) {
    forall i, j :: 0 <= i < j < |products| ==> products[i].id < products[j].id
  }

  /** `findUnique({ where: { id } })`. */
  function FindProduct(products: seq<Product>, id: int): (r: Option<Product>)
    ensures r.Some? ==> r.value in products && r.value.id == id
    ensures r.None? <==> forall p :: p in products ==> p.id != id
  {
    if products == [] then None
    else if products[0].id == id then Some(products[0])
    else FindProduct(products[1..], id)
  }

  /** The table with the row of id `id` replaced by `p`. */
  function ReplaceProduct(products: seq<Product>, id: int, p: Product): (r: seq<Product>)
    ensures |r| == |products|
    ensures forall i {:trigger r[i]} :: 0 <= i < |products| ==> r[i] == if products[i].id == id then p else products[i]
  {
    if products == [] then []
    else [if products[0].id == id then p else products[0]] + ReplaceProduct(products[1..], id, p)
  }

  /** The table without the row of id `id`. */
  function WithoutProduct(products: seq<Product>, id: int): (r: seq<Product>)
    ensures forall p {:trigger p in r} :: p in r <==> p in products && p.id != id
  {
    if products == [] then []
    else if products[0].id == id then WithoutProduct(products[1..], id)
    else [products[0]] + WithoutProduct(products[1..], id)
  }

  /** The product fields after `update({ data })`: a present field replaces the stored one. */
  function Patched(p: Product, patch: ProductPatch): (r: Product)
    ensures r.id == p.id && r.createdAt == p.createdAt
    ensures r.name == (if patch.name.Some? then patch.name.value else p.name)
    ensures r.price == (if patch.price.Some? then patch.price.value else p.price)
    ensures r.description == (if patch.description.Some? then patch.description else p.description)
    ensures r.category == (if patch.category.Some? then patch.category.value else p.category)
    ensures r.imageUrl == (if patch.imageUrl.Some? then patch.imageUrl else p.imageUrl)
  {
    Product(
      p.id,
      if patch.name.Some? then patch.name.value else p.name,
      if patch.description.Some? then patch.description else p.description,
      if patch.price.Some? then patch.price.value else p.price,
      if patch.category.Some? then patch.category.value else p.category,
      if patch.imageUrl.Some? then patch.imageUrl else p.imageUrl,
      p.createdAt)
  }

  /** The specifications of one product, name to value. */
  function SpecsOf(specs: map<SpecKey, string>, productId: int): (r: map<string, string>)
    ensures forall n :: n in r <==> SpecKey(productId, n) in specs
    ensures forall n :: n in r ==> r[n] == specs[SpecKey(productId, n)]
  {
    map k | k in specs && k.productId == productId :: k.name := specs[k]
  }

  /** The specification table without the rows of product `id`. */
  function SpecsWithout(specs: map<SpecKey, string>, id: int): (r: map<SpecKey, string>)
    ensures forall k :: k in r <==> k in specs && k.productId != id
    ensures forall k :: k in r ==> r[k] == specs[k]
  {
    map k | k in specs && k.productId != id :: specs[k]
  }

  // ---------------------------------------------------------------------
  // Replacing a product's specification set

  /** The names listed in a specification list. */
  function NamesOf(list: seq<SpecDto>): (r: set<string>)
    ensures forall i :: 0 <= i < |list| ==> list[i].name in r
    ensures forall n :: n in r ==> exists i :: 0 <= i < |list| && list[i].name == n
  {
    set i | 0 <= i < |list| :: list[i].name
  }

  /**
   * `deleteMany({ where: { productId: id, NOT: [...] } })`: with a non-empty
   * list, the product's rows whose name is not listed; with an empty list
   * (`NOT: undefined`), all the product's rows.
   */
  function Pruned(specs: map<SpecKey, string>, id: int, list: seq<SpecDto>): (r: map<SpecKey, string>)
    ensures forall k :: k in r <==> k in specs && (k.productId != id || k.name in NamesOf(list))
    ensures forall k :: k in r ==> r[k] == specs[k]
  {
    if |list| > 0 then
      map k | k in specs && (k.productId != id || k.name in NamesOf(list)) :: specs[k]
    else
      assert NamesOf(list) == {};
      SpecsWithout(specs, id)
  }

  /**
   * The upserts on (id, name), one per list entry, in list order: no row is
   * removed, every listed name of product `id` is present, and the rows of
   * other products are untouched.
   */
  function UpsertAll(specs: map<SpecKey, string>, id: int, list: seq<SpecDto>): (r: map<SpecKey, string>)
    ensures forall k :: k in specs ==> k in r
    ensures forall i :: 0 <= i < |list| ==> SpecKey(id, list[i].name) in r
    ensures forall k :: k in r && k.productId != id ==> k in specs && r[k] == specs[k]
    decreases |list|
  {
    if list == [] then specs
    else
      var last := list[|list| - 1];
      UpsertAll(specs, id, list[..|list| - 1])[SpecKey(id, last.name) := last.value]
  }

  /** The value of the last entry named `name`, if any. */
  function LastValue(list: seq<SpecDto>, name: string): (r: Option<string>)
    ensures r.None? <==> name !in NamesOf(list)
    decreases |list|
  {
    if list == [] then None
    else if list[|list| - 1].name == name then Some(list[|list| - 1].value)
    else
      var prefix := list[..|list| - 1];
      assert NamesOf(list) == NamesOf(prefix) + {list[|list| - 1].name} by {
        assert list == prefix + [list[|list| - 1]];
      }
      LastValue(prefix, name)
  }

  /**
   * After the upserts, the listed names of product `id` are present with
   * the value of their last entry; every other row is as before.
   */
  lemma {:induction false} UpsertAllSets(specs: map<SpecKey, string>, id: int, list: seq<SpecDto>, k: SpecKey)
    ensures k in UpsertAll(specs, id, list) <==> k in specs || (k.productId == id && k.name in NamesOf(list))
    ensures k in UpsertAll(specs, id, list) && k.productId == id && k.name in NamesOf(list) ==>
      UpsertAll(specs, id, list)[k] == LastValue(list, k.name).value
    ensures k in UpsertAll(specs, id, list) && !(k.productId == id && k.name in NamesOf(list)) ==>
      UpsertAll(specs, id, list)[k] == specs[k]
    decreases |list|
  {
    if list != [] {
      var prefix := list[..|list| - 1];
      var last := list[|list| - 1];
      assert list == prefix + [last];
      assert NamesOf(list) == NamesOf(prefix) + {last.name};
      UpsertAllSets(specs, id, prefix, k);
    }
  }

  /**
   * The specification table after `update` with a list: delete the unlisted
   * names, then upsert in order. The rows of other products are unchanged.
   */
  function SyncedSpecs(specs: map<SpecKey, string>, id: int, list: seq<SpecDto>): (r: map<SpecKey, string>)
    ensures forall k: SpecKey :: k.productId != id ==> (k in r <==> k in specs)
    ensures forall k :: k in r && k.productId != id ==> r[k] == specs[k]
    ensures forall i :: 0 <= i < |list| ==> SpecKey(id, list[i].name) in r
  {
    UpsertAll(Pruned(specs, id, list), id, list)
  }

  /**
   * Updating with a list leaves product `id` with exactly the listed names
   * (none for an empty list), each holding the value of its last entry, and
   * leaves every other product's specifications unchanged.
   */
  lemma SyncLeavesExactlyListed(specs: map<SpecKey, string>, id: int, list: seq<SpecDto>)
    ensures forall n :: n in SpecsOf(SyncedSpecs(specs, id, list), id) <==> n in NamesOf(list)
    ensures forall n :: n in NamesOf(list) ==>
      SpecsOf(SyncedSpecs(specs, id, list), id)[n] == LastValue(list, n).value
    ensures forall k: SpecKey :: k.productId != id ==>
      (k in SyncedSpecs(specs, id, list) <==> k in specs)
    ensures forall k: SpecKey :: k.productId != id && k in specs ==> SyncedSpecs(specs, id, list)[k] == specs[k]
  {
    var pruned := Pruned(specs, id, list);
    forall k
      ensures k in SyncedSpecs(specs, id, list) <==>
        (k in specs && k.productId != id) || (k.productId == id && k.name in NamesOf(list))
      ensures k in SyncedSpecs(specs, id, list) && k.productId == id ==>
        SyncedSpecs(specs, id, list)[k] == LastValue(list, k.name).value
      ensures k in SyncedSpecs(specs, id, list) && k.productId != id ==>
        SyncedSpecs(specs, id, list)[k] == specs[k]
    {
      UpsertAllSets(pruned, id, list, k);
    }
  }
}
