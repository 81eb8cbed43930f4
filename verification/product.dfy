/**
 * The product repository and the product service over in-memory Product and
 * Specification tables.
 */
module Products {
  import opened Common
  import opened ProductData
  import opened ProductErrors

  /** What the (productId, name) unique index of the Specification table throws. */
  const SpecKeyViolation: StoreError := KnownRequest(UniqueViolationCode, TargetFields(["productId", "name"]), "")

  /** The row `create` inserts under id `id` at time `now`. */
  function NewProduct(id: int, dto: CreateProductDto, now: int): (p: Product)
    ensures p.id == id && p.createdAt == now && p.name == dto.name && p.price == dto.price
    ensures p.description == dto.description && p.category == dto.category && p.imageUrl == dto.imageUrl
  {
    Product(id, dto.name, dto.description, dto.price, dto.category, dto.imageUrl, now)
  }

  /** The nested specification list of a create (`create: undefined` creates none). */
  function SpecList(specs: Option<seq<SpecDto>>): (r: seq<SpecDto>)
    ensures specs.Some? ==> r == specs.value
    ensures specs.None? ==> r == []
  {
    if specs.Some? then specs.value else []
  }

  /**
   * The error a create throws, if any: the given database failure, else the
   * specification index's violation when the list repeats a name.
   */
  function CreateFailure(dto: CreateProductDto, failure: Option<StoreError>): (r: Option<StoreError>)
    ensures failure.Some? ==> r == failure
    ensures failure.None? ==> (r.Some? <==> !Distinct(SpecNames(dto.specifications)))
  {
    FirstRepeatCharacterized(SpecNames(dto.specifications));
    if failure.Some? then failure
    else if FirstRepeat(SpecNames(dto.specifications)).Some? then Some(SpecKeyViolation)
    else None
  }

  /** A create whose list repeats a specification name is refused with that name and the product's name. */
  lemma RepeatedSpecNameRejected(dto: CreateProductDto)
    requires FirstRepeat(SpecNames(dto.specifications)).Some?
    ensures CreateFailure(dto, None) == Some(SpecKeyViolation)
    ensures CreateError(SpecKeyViolation, dto)
      == Conflict(DuplicateSpecName(FirstRepeat(SpecNames(dto.specifications)).value, Some(dto.name)))
  {
    assert NamesSpecKey(SpecKeyViolation.target);
    assert !NamesProductName(SpecKeyViolation.target);
  }

  /** The specifications created with a new product are exactly the listed ones. */
  lemma NewProductSpecs(specs: map<SpecKey, string>, id: int, list: seq<SpecDto>)
    requires forall k :: k in specs ==> k.productId != id
    ensures forall n :: n in SpecsOf(UpsertAll(specs, id, list), id) <==> n in NamesOf(list)
    ensures forall n :: n in NamesOf(list) ==> SpecsOf(UpsertAll(specs, id, list), id)[n] == LastValue(list, n).value
    ensures forall k :: k in UpsertAll(specs, id, list) <==> k in specs || (k.productId == id && k.name in NamesOf(list))
  {
    forall k
      ensures k in UpsertAll(specs, id, list) <==> k in specs || (k.productId == id && k.name in NamesOf(list))
      ensures k in UpsertAll(specs, id, list) && k.productId == id ==> UpsertAll(specs, id, list)[k] == LastValue(list, k.name).value
    {
      UpsertAllSets(specs, id, list, k);
    }
  }

  /** The synced table holds no row that was not there before, except rows of the product itself. */
  lemma SyncAddsOnlyTheProduct(specs: map<SpecKey, string>, id: int, list: seq<SpecDto>)
    ensures forall k :: k in SyncedSpecs(specs, id, list) ==> k in specs || k.productId == id
  {
    SyncLeavesExactlyListed(specs, id, list);
  }

  /** Removing a row keeps the ids increasing. */
  lemma {:induction false} WithoutProductKeepsOrder(products: seq<Product>, id: int)
    requires ProductIdsIncreasing(products)
    ensures ProductIdsIncreasing(WithoutProduct(products, id))
    decreases |products|
  {
    if products != [] {
      var rest := WithoutProduct(products[1..], id);
      WithoutProductKeepsOrder(products[1..], id);
      if products[0].id != id {
        var r := [products[0]] + rest;
        forall i, j | 0 <= i < j < |r| ensures r[i].id < r[j].id {
          assert r[j] == rest[j - 1];
          assert r[j] in rest;
          assert r[j] in products[1..];
          if i > 0 {
            assert r[i] == rest[i - 1];
          } else {
            var m :| 0 <= m < |products[1..]| && products[1..][m] == r[j];
            assert products[m + 1] == r[j];
          }
        }
      }
    }
  }

  /** Appending a row with an id above every stored id keeps the ids increasing. */
  lemma AppendKeepsOrder(products: seq<Product>, p: Product)
    requires ProductIdsIncreasing(products)
    requires forall q :: q in products ==> q.id < p.id
    ensures ProductIdsIncreasing(products + [p])
  {
    forall i, j | 0 <= i < j < |products + [p]|
      ensures (products + [p])[i].id < (products + [p])[j].id
    {
      assert (products + [p])[i] == products[i];
      if j == |products| {
        assert products[i] in products;
      }
    }
  }

  /** After appending a row, `findUnique` finds every id it found before, and the new row's id. */
  lemma {:induction false} FindProductAppend(products: seq<Product>, p: Product, x: int)
    ensures FindProduct(products + [p], x).Some? <==> FindProduct(products, x).Some? || p.id == x
    decreases |products|
  {
    if products == [] {
      assert [p][1..] == [];
    } else {
      assert (products + [p])[1..] == products[1..] + [p];
      FindProductAppend(products[1..], p, x);
    }
  }

  /**
   * The specifications stored with a new row, whose id is above every stored
   * id, belong to stored rows or to the new one; none belonged to it before.
   */
  lemma InsertKeepsSpecsOwned(products: seq<Product>, specs: map<SpecKey, string>, p: Product, list: seq<SpecDto>)
    requires forall q :: q in products ==> q.id < p.id
    requires forall k :: k in specs ==> FindProduct(products, k.productId).Some?
    ensures forall k :: k in specs ==> k.productId != p.id
    ensures forall k :: k in UpsertAll(specs, p.id, list) ==> FindProduct(products + [p], k.productId).Some?
  {
    forall k | k in specs ensures k.productId != p.id {
      assert FindProduct(products, k.productId).value in products;
    }
    forall k | k in UpsertAll(specs, p.id, list) ensures FindProduct(products + [p], k.productId).Some? {
      UpsertAllSets(specs, p.id, list, k);
      FindProductAppend(products, p, k.productId);
    }
  }

  /** A database holding the Product and Specification tables; its methods are those of the product repository. */
  class ProductRepository {
    var products: seq<Product>
    var specs: map<SpecKey, string>
    var nextId: int

    /** Product ids increase along the table and stay below the next id; every specification belongs to a product. */
    ghost predicate Valid()
      reads this
    {
      && ProductIdsIncreasing(products)
      && (forall p :: p in products ==> p.id < nextId)
      && (forall k :: k in specs ==> FindProduct(products, k.productId).Some?)
    }

    constructor ()
      ensures Valid() && products == [] && specs == map[]
    {
      products, specs, nextId := [], map[], 1;
    }

    /** A product with its specifications. */
    function View(p: Product): (v: ProductView)
      reads this
      ensures v.product == p
      ensures forall n :: n in v.specifications <==> SpecKey(p.id, n) in specs
    {
      ProductView(p, SpecsOf(specs, p.id))
    }

    /** `search`: the matching products with their specifications, newest first. */
    function Search(q: SearchQuery): (r: seq<ProductView>)
      reads this
      ensures |r| == |ProductData.Search(products, q)|
      ensures forall i :: 0 <= i < |r| ==> r[i] == View(ProductData.Search(products, q)[i])
    {
      var found := ProductData.Search(products, q);
      seq(|found|, i requires 0 <= i < |found| reads this => View(found[i]))
    }

    /** `findOne`: the product with its specifications, or NotFound. */
    function FindOne(id: int): (r: Result<ProductView>)
      reads this
      ensures r.Err? <==> forall p :: p in products ==> p.id != id
      ensures r.Err? ==> r.error == NotFound(NoProductWithId(id))
      ensures r.Ok? ==> r.value.product in products && r.value.product.id == id
      ensures r.Ok? ==> r.value.specifications == SpecsOf(specs, id)
    {
      match FindProduct(products, id)
      case None => Err(NotFound(NoProductWithId(id)))
      case Some(p) => Ok(View(p))
    }

    /**
     * `create`: inserts the product and its specifications, or throws what
     * the catch block makes of the database's error.
     */
    method Create(dto: CreateProductDto, now: int, failure: Option<StoreError>) returns (r: Result<ProductView>)
      requires Valid()
      modifies this
      ensures Valid()
      ensures CreateFailure(dto, failure).Some? ==>
        && r == Err(CreateError(CreateFailure(dto, failure).value, dto))
        && products == old(products) && specs == old(specs) && nextId == old(nextId)
      ensures CreateFailure(dto, failure).None? ==>
        && products == old(products) + [NewProduct(old(nextId), dto, now)]
        && specs == UpsertAll(old(specs), old(nextId), SpecList(dto.specifications))
        && nextId == old(nextId) + 1
        && r == Ok(View(NewProduct(old(nextId), dto, now)))
      ensures r.Ok? ==> forall n :: n in r.value.specifications <==> n in NamesOf(SpecList(dto.specifications))
    {
      var e := CreateFailure(dto, failure);
      if e.Some? {
        if e.value.KnownRequest? && e.value.code == UniqueViolationCode {
          var c := ClassifyCreateConflict(e.value.target, dto);
          return Err(Conflict(c));
        }
        return Err(Other(e.value));
      }
      var v := InsertProduct(dto, now);
      r := Ok(v);
    }

    /** The insert of `create`: the row and its listed specifications, under the next id. */
    method InsertProduct(dto: CreateProductDto, now: int) returns (v: ProductView)
      requires Valid()
      modifies this
      ensures Valid()
      ensures products == old(products) + [NewProduct(old(nextId), dto, now)]
      ensures specs == UpsertAll(old(specs), old(nextId), SpecList(dto.specifications))
      ensures nextId == old(nextId) + 1
      ensures v == View(NewProduct(old(nextId), dto, now))
      ensures forall n :: n in v.specifications <==> n in NamesOf(SpecList(dto.specifications))
    {
      var id := nextId;
      var p := NewProduct(id, dto, now);
      var list := SpecList(dto.specifications);
      InsertKeepsSpecsOwned(products, specs, p, list);
      AppendKeepsOrder(products, p);
      NewProductSpecs(specs, id, list);
      products := products + [p];
      specs := UpsertAll(specs, id, list);
      nextId := nextId + 1;
      v := View(p);
    }

    /**
     * `update`: patches the product; with a specification list, deletes the
     * product's unlisted specifications and upserts the listed ones in order.
     */
    method Update(id: int, patch: ProductPatch, failure: Option<StoreError>) returns (r: Result<ProductView>)
      requires Valid()
      modifies this
      ensures Valid()
      ensures nextId == old(nextId)
      ensures FindProduct(old(products), id).None? ==>
        && r == Err(UpdateError(MissingRecord, id, patch))
        && products == old(products) && specs == old(specs)
      ensures FindProduct(old(products), id).Some? && failure.Some? ==>
        && r == Err(UpdateError(failure.value, id, patch))
        && products == old(products) && specs == old(specs)
      ensures FindProduct(old(products), id).Some? && failure.None? ==>
        && products == ReplaceProduct(old(products), id, Patched(FindProduct(old(products), id).value, patch))
        && specs == (if patch.specifications.Some? then SyncedSpecs(old(specs), id, patch.specifications.value) else old(specs))
        && r == Ok(View(Patched(FindProduct(old(products), id).value, patch)))
    {
      var found := FindProduct(products, id);
      if found.None? {
        return Err(UpdateError(MissingRecord, id, patch));
      }
      if failure.Some? {
        return Err(UpdateError(failure.value, id, patch));
      }
      var updated := Patched(found.value, patch);
      ReplaceKeepsOrder(products, id, updated);
      products := ReplaceProduct(products, id, updated);
      if patch.specifications.Some? {
        ReplaceSpecifications(id, patch.specifications.value);
      }
      forall k | k in specs ensures FindProduct(products, k.productId).Some? {
        ReplaceFind(old(products), id, updated, k.productId);
      }
      r := Ok(View(updated));
    }

    /**
     * The specification half of `update`: delete the product's specifications
     * not in the list (all of them for an empty list), then upsert each entry.
     */
    method ReplaceSpecifications(id: int, list: seq<SpecDto>)
      modifies this
      ensures products == old(products) && nextId == old(nextId)
      ensures specs == SyncedSpecs(old(specs), id, list)
      ensures forall k :: k in specs ==> k in old(specs) || k.productId == id
    {
      SyncAddsOnlyTheProduct(specs, id, list);
      specs := Pruned(specs, id, list);
      ghost var pruned := specs;
      if |list| > 0 {
        var i := 0;
        while i < |list|
          invariant 0 <= i <= |list|
          invariant specs == UpsertAll(pruned, id, list[..i])
          invariant products == old(products) && nextId == old(nextId)
        {
          assert list[..i + 1][..i] == list[..i];
          specs := specs[SpecKey(id, list[i].name) := list[i].value];
          i := i + 1;
        }
        assert list[..i] == list;
      }
    }

    /** `remove`: deletes the product and, with it, its specifications. */
    method Remove(id: int, failure: Option<StoreError>) returns (r: Result<ProductView>)
      requires Valid()
      modifies this
      ensures Valid()
      ensures nextId == old(nextId)
      ensures FindProduct(old(products), id).None? ==>
        && r == Err(RemoveError(MissingRecord, id))
        && products == old(products) && specs == old(specs)
      ensures FindProduct(old(products), id).Some? && failure.Some? ==>
        && r == Err(RemoveError(failure.value, id))
        && products == old(products) && specs == old(specs)
      ensures FindProduct(old(products), id).Some? && failure.None? ==>
        && products == WithoutProduct(old(products), id)
        && specs == SpecsWithout(old(specs), id)
        && r == Ok(ProductView(FindProduct(old(products), id).value, SpecsOf(old(specs), id)))
    {
      var found := FindProduct(products, id);
      if found.None? {
        return Err(RemoveError(MissingRecord, id));
      }
      if failure.Some? {
        return Err(RemoveError(failure.value, id));
      }
      r := Ok(View(found.value));
      WithoutProductKeepsOrder(products, id);
      products := WithoutProduct(products, id);
      specs := SpecsWithout(specs, id);
      forall k | k in specs ensures FindProduct(products, k.productId).Some? {
        var q := FindProduct(old(products), k.productId).value;
        assert q in products;
      }
    }
  }

  /** Replacing a row by one with the same id keeps the ids increasing and adds no other row. */
  lemma ReplaceKeepsOrder(products: seq<Product>, id: int, p: Product)
    requires p.id == id
    requires ProductIdsIncreasing(products)
    ensures ProductIdsIncreasing(ReplaceProduct(products, id, p))
    ensures forall q :: q in ReplaceProduct(products, id, p) ==> q == p || q in products
  {
    var r := ReplaceProduct(products, id, p);
    assert forall i :: 0 <= i < |r| ==> r[i].id == products[i].id;
    forall q | q in r ensures q == p || q in products {
      var i :| 0 <= i < |r| && r[i] == q;
      assert q == p || q == products[i];
    }
  }

  /** After the replacement, `findUnique` finds the new row under its id and the old rows under theirs. */
  lemma {:induction false} ReplaceFind(products: seq<Product>, id: int, p: Product, x: int)
    requires p.id == id
    ensures FindProduct(ReplaceProduct(products, id, p), x)
      == if x != id then FindProduct(products, x) else if FindProduct(products, id).Some? then Some(p) else None
    decreases |products|
  {
    if products != [] {
      var r := ReplaceProduct(products, id, p);
      assert r[1..] == ReplaceProduct(products[1..], id, p);
      ReplaceFind(products[1..], id, p, x);
    }
  }

  /** The product service: create, update and remove, with their catch blocks, over one repository. */
  class ProductService {
    const repo: ProductRepository

    constructor (repo: ProductRepository)
      ensures this.repo == repo
    {
      this.repo := repo;
    }

    /** `findOne`: the repository's lookup; the service's own null check cannot fire, as the repository already throws the same NotFound. */
    function FindOne(id: int): (r: Result<ProductView>)
      reads repo
      ensures r.Err? <==> forall p :: p in repo.products ==> p.id != id
      ensures r.Err? ==> r.error == NotFound(NoProductWithId(id))
      ensures r.Ok? ==> r.value.product in repo.products && r.value.product.id == id
    {
      repo.FindOne(id)
    }

    /** `create`: the repository's outcome, passed through the service's P2002 handler. */
    method Create(dto: CreateProductDto, now: int, failure: Option<StoreError>) returns (r: Result<ProductView>)
      requires repo.Valid()
      modifies repo
      ensures repo.Valid()
      ensures CreateFailure(dto, failure).Some? ==>
        && r == Err(CreateError(CreateFailure(dto, failure).value, dto))
        && repo.products == old(repo.products) && repo.specs == old(repo.specs)
      ensures CreateFailure(dto, failure).None? ==>
        && repo.products == old(repo.products) + [NewProduct(old(repo.nextId), dto, now)]
        && repo.specs == UpsertAll(old(repo.specs), old(repo.nextId), SpecList(dto.specifications))
        && r == Ok(repo.View(NewProduct(old(repo.nextId), dto, now)))
    {
      r := repo.Create(dto, now, failure);
      if r.Err? {
        ServiceCatchesPassRepositoryErrors(CreateFailure(dto, failure).value, dto, 0, ProductPatch(None, None, None, None, None, None));
        r := Err(ServiceCreateCatch(r.error, dto));
      }
    }

    /** `update`: the repository's outcome, passed through the service's P2025 and P2002 handlers. */
    method Update(id: int, patch: ProductPatch, failure: Option<StoreError>) returns (r: Result<ProductView>)
      requires repo.Valid()
      modifies repo
      ensures repo.Valid()
      ensures FindProduct(old(repo.products), id).None? ==>
        && r == Err(NotFound(ProductNotFound(id)))
        && repo.products == old(repo.products) && repo.specs == old(repo.specs)
      ensures FindProduct(old(repo.products), id).Some? && failure.Some? ==>
        && r == Err(UpdateError(failure.value, id, patch))
        && repo.products == old(repo.products) && repo.specs == old(repo.specs)
      ensures FindProduct(old(repo.products), id).Some? && failure.None? ==>
        && repo.products == ReplaceProduct(old(repo.products), id, Patched(FindProduct(old(repo.products), id).value, patch))
        && repo.specs == (if patch.specifications.Some? then SyncedSpecs(old(repo.specs), id, patch.specifications.value) else old(repo.specs))
        && r == Ok(repo.View(Patched(FindProduct(old(repo.products), id).value, patch)))
    {
      r := repo.Update(id, patch, failure);
      if r.Err? {
        var e := if failure.Some? then failure.value else MissingRecord;
        ServiceCatchesPassRepositoryErrors(e, CreateProductDto("", None, 0, "", None, None), id, patch);
        r := Err(ServiceUpdateCatch(r.error, id, patch));
      }
    }

    /** `remove`: the repository's outcome, passed through the service's P2025 handler. */
    method Remove(id: int, failure: Option<StoreError>) returns (r: Result<ProductView>)
      requires repo.Valid()
      modifies repo
      ensures repo.Valid()
      ensures FindProduct(old(repo.products), id).None? ==>
        && r == Err(NotFound(ProductNotFound(id)))
        && repo.products == old(repo.products) && repo.specs == old(repo.specs)
      ensures FindProduct(old(repo.products), id).Some? && failure.Some? ==>
        && r == Err(RemoveError(failure.value, id))
        && repo.products == old(repo.products) && repo.specs == old(repo.specs)
      ensures FindProduct(old(repo.products), id).Some? && failure.None? ==>
        && repo.products == WithoutProduct(old(repo.products), id)
        && repo.specs == SpecsWithout(old(repo.specs), id)
        && r == Ok(ProductView(FindProduct(old(repo.products), id).value, SpecsOf(old(repo.specs), id)))
    {
      r := repo.Remove(id, failure);
      if r.Err? {
        var e := if failure.Some? then failure.value else MissingRecord;
        ServiceCatchesPassRepositoryErrors(e, CreateProductDto("", None, 0, "", None, None), id, ProductPatch(None, None, None, None, None, None));
        r := Err(ServiceRemoveCatch(r.error, id));
      }
    }
  }
}
