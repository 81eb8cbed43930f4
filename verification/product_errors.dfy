/**
 * How the product repository and the product service turn database errors
 * into HTTP errors: the classification of unique-constraint violations, the
 * duplicate-name scan over a request's specification list, and the catch
 * blocks of create, update and remove.
 */
module ProductErrors {
  import opened Common
  import opened ProductData

  // ---------------------------------------------------------------------
  // The duplicate-name scan

  /** The names of a request's specification list (`specifications?.map(s => s.name) || []`). */
  function SpecNames(specs: Option<seq<SpecDto>>): (r: seq<string>)
    ensures specs.None? ==> r == []
    ensures specs.Some? ==> |r| == |specs.value| && forall i :: 0 <= i < |r| ==> r[i] == specs.value[i].name
  {
    if specs.None? then [] else seq(|specs.value|, i requires 0 <= i < |specs.value| => specs.value[i].name)
  }

  ghost predicate Distinct(names: seq<string>) {
    forall i, j :: 0 <= i < j < |names| ==> names[i] != names[j]
  }

  /** The first name that occurs a second time, read left to right. */
  function FirstRepeat(names: seq<string>): (r: Option<string>)
    ensures r.Some? ==> r.value in names
    decreases |names|
  {
    if names == [] then None
    else
      var prefix := names[..|names| - 1];
      var earlier := FirstRepeat(prefix);
      if earlier.Some? then earlier
      else if names[|names| - 1] in prefix then Some(names[|names| - 1])
      else None
  }

  /**
   * FirstRepeat finds nothing exactly on lists without repeats; what it
   * finds is a name whose second occurrence ends the shortest prefix that
   * has a repeat.
   */
  lemma {:induction false} FirstRepeatCharacterized(names: seq<string>)
    ensures FirstRepeat(names).None? <==> Distinct(names)
    ensures FirstRepeat(names).Some? ==>
      exists j :: 0 <= j < |names| && names[j] == FirstRepeat(names).value && names[j] in names[..j] && Distinct(names[..j])
    decreases |names|
  {
    if names != [] {
      var prefix := names[..|names| - 1];
      var last := names[|names| - 1];
      FirstRepeatCharacterized(prefix);
      if FirstRepeat(prefix).Some? {
        var j :| 0 <= j < |prefix| && prefix[j] == FirstRepeat(prefix).value && prefix[j] in prefix[..j] && Distinct(prefix[..j]);
        assert prefix[..j] == names[..j];
        assert !Distinct(names) by {
          var i :| 0 <= i < j && prefix[..j][i] == prefix[j];
          assert names[i] == names[j];
        }
      } else if last in prefix {
        assert names[..|names| - 1] == prefix;
        var i :| 0 <= i < |prefix| && prefix[i] == last;
        assert names[i] == names[|names| - 1];
      } else {
        forall i, j | 0 <= i < j < |names| ensures names[i] != names[j] {
          if j == |names| - 1 {
            assert names[i] == prefix[i];
          } else {
            assert names[i] == prefix[i] && names[j] == prefix[j];
          }
        }
      }
    }
  }

  /** Once a prefix has a repeat, the longer list reports the same one. */
  lemma {:induction false} FirstRepeatExtends(names: seq<string>, n: nat)
    requires n <= |names|
    requires FirstRepeat(names[..n]).Some?
    ensures FirstRepeat(names) == FirstRepeat(names[..n])
    decreases |names| - n
  {
    if n < |names| {
      assert names[..n + 1][..n] == names[..n];
      FirstRepeatExtends(names, n + 1);
    } else {
      assert names[..n] == names;
    }
  }

  /**
   * The scan of `handlePrismaError2022` (and of the repository's create):
   * count each name in a dictionary and stop at the first count above 1.
   */
  method FirstDuplicate(names: seq<string>) returns (dup: Option<string>)
    ensures dup == FirstRepeat(names)
  {
    var counts: map<string, nat> := map[];
    dup := None;
    var i := 0;
    while i < |names|
      invariant 0 <= i <= |names|
      invariant forall k :: k in counts <==> k in names[..i]
      invariant forall k :: k in counts ==> counts[k] == 1
      invariant FirstRepeat(names[..i]) == None
    {
      var name := names[i];
      var count := (if name in counts then counts[name] else 0) + 1;
      counts := counts[name := count];
      assert names[..i + 1][..i] == names[..i];
      assert names[..i + 1] == names[..i] + [name];
      if count > 1 {
        dup := Some(name);
        FirstRepeatExtends(names, i + 1);
        break;
      }
      i := i + 1;
    }
    if dup.None? {
      assert names[..i] == names;
    }
  }

  /** Color, Size, Color, Weight: the repeated "Color" is reported. */
  lemma RepeatedColorReported()
    ensures FirstRepeat(["Color", "Size", "Color", "Weight"]) == Some("Color")
  {
    var names := ["Color", "Size", "Color", "Weight"];
    assert ["Color"][..0] == [];
    assert FirstRepeat(["Color"]) == None;
    assert ["Color", "Size"][..1] == ["Color"];
    assert FirstRepeat(["Color", "Size"]) == None;
    assert names[..3] == ["Color", "Size", "Color"];
    assert names[..3][..2] == ["Color", "Size"];
    assert FirstRepeat(names[..3]) == Some("Color");
    FirstRepeatExtends(names, 3);
  }

  // ---------------------------------------------------------------------
  // The scan as the source writes it, on a plain JavaScript object

  /** The properties every plain object inherits from Object.prototype. */
  const InheritedKeys: set<string> := {
    "constructor", "__defineGetter__", "__defineSetter__", "hasOwnProperty",
    "__lookupGetter__", "__lookupSetter__", "isPrototypeOf", "propertyIsEnumerable",
    "toString", "valueOf", "__proto__", "toLocaleString"}

  /** A value read from `counts[name]`. */
  datatype CountValue =
    | Missing          // undefined
    | Count(n: int)    // a number stored by the loop
    | Inherited        // a function or object inherited from Object.prototype
    | NonNumericText   // a string such as "function Object() { [native code] }1"

  /** `counts[name]`: an own property, else an inherited one, else undefined. */
  function Lookup(counts: map<string, CountValue>, name: string): CountValue {
    if name in counts then counts[name] else if name in InheritedKeys then Inherited else Missing
  }

  /** `(counts[name] || 0) + 1`: adding 1 to a function or a string concatenates. */
  function Bump(v: CountValue): CountValue {
    match v
    case Missing => Count(1)
    case Count(n) => Count(n + 1)
    case Inherited => NonNumericText
    case NonNumericText => NonNumericText
  }

  /** `counts[name] > 1`: a non-numeric string compares as NaN, which is never greater. */
  predicate ExceedsOne(v: CountValue) {
    v.Count? && v.n > 1
  }

  /** `counts[name] = v`: assigning a string to `__proto__` is ignored. */
  function Store(counts: map<string, CountValue>, name: string, v: CountValue): map<string, CountValue> {
    if name == "__proto__" then counts else counts[name := v]
  }

  /**
   * The loop over a plain object, as written. A reported name is one of
   * `names`, and an inherited key is reported only when the dictionary
   * already held a number (or undefined) of its own for it.
   */
  function ScanAsWritten(names: seq<string>, counts: map<string, CountValue>): (r: Option<string>)
    ensures r.Some? ==> r.value in names
    ensures r.Some? && r.value in InheritedKeys ==>
      r.value in counts && (counts[r.value].Count? || counts[r.value].Missing?)
    decreases |names|
  {
    if names == [] then None
    else
      var v := Bump(Lookup(counts, names[0]));
      if ExceedsOne(v) then Some(names[0])
      else ScanAsWritten(names[1..], Store(counts, names[0], v))
  }

  /** `if (duplicateSpecName)`: the empty name found by the scan is falsy and is dropped. */
  function ReportedAsWritten(names: seq<string>): (r: Option<string>)
    ensures r.Some? ==> r.value in names && r.value != "" && r.value !in InheritedKeys
  {
    var d := ScanAsWritten(names, map[]);
    if d.Some? && d.value != "" then d else None
  }

  /** The dictionary the loop holds after counting each name of `seen` once. */
  function CountsOf(seen: seq<string>): map<string, CountValue> {
    map k | k in seen :: Count(1)
  }

  /**
   * On names that are neither inherited keys nor empty, the scan as written
   * reports what FirstRepeat finds.
   */
  lemma {:induction false} AsWrittenScanMatches(seen: seq<string>, rest: seq<string>)
    requires FirstRepeat(seen).None?
    requires forall n :: n in rest ==> n !in InheritedKeys
    ensures ScanAsWritten(rest, CountsOf(seen)) == FirstRepeat(seen + rest)
    decreases |rest|
  {
    if rest == [] {
      assert seen + rest == seen;
    } else {
      var x := rest[0];
      var grown := seen + [x];
      assert grown[..|grown| - 1] == seen;
      assert seen + rest == grown + rest[1..];
      if x in seen {
        assert FirstRepeat(grown) == Some(x);
        assert (grown + rest[1..])[..|grown|] == grown;
        FirstRepeatExtends(grown + rest[1..], |grown|);
      } else {
        assert FirstRepeat(grown).None?;
        assert Store(CountsOf(seen), x, Count(1)) == CountsOf(grown);
        AsWrittenScanMatches(grown, rest[1..]);
      }
    }
  }

  /** The scan as written agrees with FirstRepeat unless an inherited key or the empty name repeats. */
  lemma AsWrittenAgreesOnOrdinaryNames(names: seq<string>)
    requires forall n :: n in names ==> n !in InheritedKeys && n != ""
    ensures ReportedAsWritten(names) == FirstRepeat(names)
  {
    assert CountsOf([]) == map[];
    assert [] + names == names;
    AsWrittenScanMatches([], names);
  }

  /** A repeated "constructor" is never reported: its count starts from Object's constructor function. */
  lemma InheritedNameNotReported()
    ensures FirstRepeat(["constructor", "constructor"]) == Some("constructor")
    ensures ReportedAsWritten(["constructor", "constructor"]) == None
  {
    var names := ["constructor", "constructor"];
    assert names[..1] == ["constructor"];
    assert names[1..] == ["constructor"];
  }

  /** A repeated empty name is found by the scan but dropped by the truthiness test. */
  lemma EmptyNameNotReported()
    ensures FirstRepeat(["", ""]) == Some("")
    ensures ReportedAsWritten(["", ""]) == None
  {
    var names := ["", ""];
    assert names[..1] == [""];
    assert names[1..] == [""];
  }

  // ---------------------------------------------------------------------
  // Classifying a unique-constraint violation

  /** The target names the product-name constraint: a constraint name containing `product_name`, or exactly `["name"]`. */
  predicate NamesProductName(t: Target) {
    || (t.TargetName? && Contains(ToLower(t.name), "product_name"))
    || (t.TargetFields? && t.fields == ["name"])
  }

  /** The target names the (productId, name) constraint of the specification table. */
  predicate NamesSpecKey(t: Target) {
    || (t.TargetName? && Contains(ToLower(t.name), "specification_productid_name"))
    || (t.TargetFields? && |t.fields| == 2 && "productId" in t.fields && "name" in t.fields)
  }

  /** The two specification-branch outcomes, from the scan's result. */
  function SpecConflict(dup: Option<string>, name: Option<string>): (r: ConflictReason)
    ensures r.DuplicateSpecName? <==> dup.Some?
    ensures r.DuplicateSpecName? ==> Some(r.spec) == dup && r.product == name
    ensures dup.None? ==> r == SpecNameConflict(name)
  {
    if dup.Some? then DuplicateSpecName(dup.value, name) else SpecNameConflict(name)
  }

  /** The conflict `handlePrismaError2022` throws, with the corrected scan. */
  function ServiceConflict(t: Target, name: Option<string>, specs: Option<seq<SpecDto>>): (c: ConflictReason)
    ensures t.NoTarget? <==> c == UnknownConstraint
    ensures !t.NoTarget? && NamesProductName(t) ==> c == ProductNameExists(name)
    ensures !t.NoTarget? && !NamesProductName(t) && NamesSpecKey(t) ==>
      (c.DuplicateSpecName? <==> !Distinct(SpecNames(specs)))
    ensures c.DuplicateSpecName? ==> c.spec in SpecNames(specs) && c.product == name
    ensures c.DuplicateSpecName? ==> Some(c.spec) == FirstRepeat(SpecNames(specs))
    ensures !t.NoTarget? && !NamesProductName(t) && NamesSpecKey(t) && Distinct(SpecNames(specs)) ==>
      c == SpecNameConflict(name)
    ensures !t.NoTarget? && !NamesProductName(t) && !NamesSpecKey(t) ==> c == UniqueViolation(t)
    ensures c.UniqueViolation? ==> c.target == t && !NamesProductName(t) && !NamesSpecKey(t)
  {
    FirstRepeatCharacterized(SpecNames(specs));
    if t.NoTarget? then UnknownConstraint
    else if NamesProductName(t) then ProductNameExists(name)
    else if NamesSpecKey(t) then SpecConflict(FirstRepeat(SpecNames(specs)), name)
    else UniqueViolation(t)
  }

  /** The conflict the repository's create throws: as above, but an absent target falls through to the generic message. */
  function CreateConflict(t: Target, dto: CreateProductDto): (c: ConflictReason)
    ensures c != UnknownConstraint
    ensures NamesProductName(t) ==> c == ProductNameExists(Some(dto.name))
    ensures !NamesProductName(t) && NamesSpecKey(t) ==>
      (c.DuplicateSpecName? <==> !Distinct(SpecNames(dto.specifications)))
    ensures c.DuplicateSpecName? ==>
      Some(c.spec) == FirstRepeat(SpecNames(dto.specifications)) && c.product == Some(dto.name)
    ensures !NamesProductName(t) && !NamesSpecKey(t) ==> c == UniqueViolation(t)
  {
    FirstRepeatCharacterized(SpecNames(dto.specifications));
    if NamesProductName(t) then ProductNameExists(Some(dto.name))
    else if NamesSpecKey(t) then SpecConflict(FirstRepeat(SpecNames(dto.specifications)), Some(dto.name))
    else UniqueViolation(t)
  }

  /** `handlePrismaError2022`, with its loop. */
  method HandlePrismaError2022(t: Target, name: Option<string>, specs: Option<seq<SpecDto>>) returns (c: ConflictReason)
    ensures c == ServiceConflict(t, name, specs)
  {
    if t.NoTarget? {
      return UnknownConstraint;
    }
    if NamesProductName(t) {
      c := ProductNameExists(name);
    } else if NamesSpecKey(t) {
      var dup := FirstDuplicate(SpecNames(specs));
      c := SpecConflict(dup, name);
    } else {
      c := UniqueViolation(t);
    }
  }

  /** The P2002 branch of the repository's create, with its loop. */
  method ClassifyCreateConflict(t: Target, dto: CreateProductDto) returns (c: ConflictReason)
    ensures c == CreateConflict(t, dto)
  {
    if NamesProductName(t) {
      c := ProductNameExists(Some(dto.name));
    } else if NamesSpecKey(t) {
      var dup := FirstDuplicate(SpecNames(dto.specifications));
      c := SpecConflict(dup, Some(dto.name));
    } else {
      c := UniqueViolation(t);
    }
  }

  /** The two copies of the classifier agree on every present target and differ on an absent one. */
  lemma CreateClassifiersAgree(t: Target, dto: CreateProductDto)
    ensures !t.NoTarget? ==> CreateConflict(t, dto) == ServiceConflict(t, Some(dto.name), dto.specifications)
    ensures t.NoTarget? ==> CreateConflict(t, dto) == UniqueViolation(NoTarget) && ServiceConflict(t, Some(dto.name), dto.specifications) == UnknownConstraint
  {
  }

  // ---------------------------------------------------------------------
  // The repository's catch blocks

  /** The catch of the repository's create: P2002 becomes a conflict, anything else is rethrown. */
  function CreateError(e: StoreError, dto: CreateProductDto): (r: Error)
    ensures r.Conflict? <==> e.KnownRequest? && e.code == UniqueViolationCode
    ensures !r.Conflict? ==> r == Other(e)
  {
    if e.KnownRequest? && e.code == UniqueViolationCode then Conflict(CreateConflict(e.target, dto)) else Other(e)
  }

  /** `target && target.includes('name')`: a substring test on a string, a membership test on a list. */
  predicate TargetMentionsName(t: Target) {
    || (t.TargetName? && t.name != "" && Contains(t.name, "name"))
    || (t.TargetFields? && "name" in t.fields)
  }

  /** The error `target?.join(', ')` throws when the target is a string. */
  const JoinOnString: StoreError := Unexpected("TypeError: target.join is not a function")

  /** The catch of the repository's update. */
  function UpdateError(e: StoreError, id: int, patch: ProductPatch): (r: Error)
    ensures e.KnownRequest? && e.code == RecordNotFoundCode ==> r == NotFound(ProductNotFound(id))
    ensures r.Conflict? ==> e.KnownRequest? && e.code == UniqueViolationCode
    ensures e.KnownRequest? && e.code == UniqueViolationCode && e.target.TargetFields? ==> r.Conflict?
    ensures e.KnownRequest? && e.code == UniqueViolationCode && TargetMentionsName(e.target) && Contains(e.message, "Product") ==>
      r == Conflict(ProductNameTaken(patch.name))
    ensures e.KnownRequest? && e.code == UniqueViolationCode && !(TargetMentionsName(e.target) && Contains(e.message, "Product")) ==>
      r == match e.target
        case NoTarget => Conflict(UniqueFieldsViolated(None))
        case TargetFields(f) => Conflict(UniqueFieldsViolated(Some(f)))
        case TargetName(_) => Other(JoinOnString)
    ensures !(e.KnownRequest? && (e.code == RecordNotFoundCode || e.code == UniqueViolationCode)) ==> r == Other(e)
  {
    if e.Unexpected? then Other(e)
    else if e.code == RecordNotFoundCode then NotFound(ProductNotFound(id))
    else if e.code == UniqueViolationCode then
      if TargetMentionsName(e.target) && Contains(e.message, "Product") then Conflict(ProductNameTaken(patch.name))
      else match e.target
        case NoTarget => Conflict(UniqueFieldsViolated(None))
        case TargetFields(f) => Conflict(UniqueFieldsViolated(Some(f)))
        case TargetName(_) => Other(JoinOnString)
    else Other(e)
  }

  /** A constraint-name target that fails the name test makes the catch block itself throw a TypeError. */
  lemma StringTargetThrowsTypeError(name: string, message: string, id: int, patch: ProductPatch)
    requires !(TargetMentionsName(TargetName(name)) && Contains(message, "Product"))
    ensures UpdateError(KnownRequest(UniqueViolationCode, TargetName(name), message), id, patch) == Other(JoinOnString)
  {
  }

  /** The catch of the repository's remove: P2025 becomes NotFound, anything else is rethrown. */
  function RemoveError(e: StoreError, id: int): (r: Error)
    ensures r.NotFound? <==> e.KnownRequest? && e.code == RecordNotFoundCode
    ensures r.NotFound? ==> r.reason == ProductNotFound(id)
    ensures !r.NotFound? ==> r == Other(e)
  {
    if e.KnownRequest? && e.code == RecordNotFoundCode then NotFound(ProductNotFound(id)) else Other(e)
  }

  // ---------------------------------------------------------------------
  // The service's catch blocks

  /** The catch of the service's create. */
  function ServiceCreateCatch(err: Error, dto: CreateProductDto): (r: Error)
    ensures !HasCode(err, UniqueViolationCode) ==> r == err
    ensures HasCode(err, UniqueViolationCode) ==> r.Conflict?
    ensures HasCode(err, UniqueViolationCode) && err.raw.target.NoTarget? ==> r == Conflict(UnknownConstraint)
    ensures HasCode(err, UniqueViolationCode) && !err.raw.target.NoTarget? ==>
      r == Conflict(CreateConflict(err.raw.target, dto))
  {
    if HasCode(err, UniqueViolationCode) then Conflict(ServiceConflict(err.raw.target, Some(dto.name), dto.specifications))
    else err
  }

  /** The catch of the service's update. */
  function ServiceUpdateCatch(err: Error, id: int, patch: ProductPatch): (r: Error)
    ensures !HasCode(err, RecordNotFoundCode) && !HasCode(err, UniqueViolationCode) ==> r == err
    ensures HasCode(err, RecordNotFoundCode) ==> r == NotFound(ProductNotFound(id))
    ensures HasCode(err, UniqueViolationCode) ==> r.Conflict?
    ensures HasCode(err, UniqueViolationCode) && NamesProductName(err.raw.target) && !err.raw.target.NoTarget? ==>
      r == Conflict(ProductNameExists(patch.name))
  {
    if HasCode(err, RecordNotFoundCode) then NotFound(ProductNotFound(id))
    else if HasCode(err, UniqueViolationCode) then Conflict(ServiceConflict(err.raw.target, patch.name, patch.specifications))
    else err
  }

  /** The catch of the service's remove. */
  function ServiceRemoveCatch(err: Error, id: int): (r: Error)
    ensures HasCode(err, RecordNotFoundCode) ==> r == NotFound(ProductNotFound(id))
    ensures !HasCode(err, RecordNotFoundCode) ==> r == err
    ensures r.NotFound? ==> HasCode(err, RecordNotFoundCode) || err == r
  {
    if HasCode(err, RecordNotFoundCode) then NotFound(ProductNotFound(id)) else err
  }

  /**
   * The repository never lets a P2002 or P2025 error through, so the
   * service's catch blocks rethrow whatever the repository throws.
   */
  lemma ServiceCatchesPassRepositoryErrors(e: StoreError, dto: CreateProductDto, id: int, patch: ProductPatch)
    ensures ServiceCreateCatch(CreateError(e, dto), dto) == CreateError(e, dto)
    ensures ServiceUpdateCatch(UpdateError(e, id, patch), id, patch) == UpdateError(e, id, patch)
    ensures ServiceRemoveCatch(RemoveError(e, id), id) == RemoveError(e, id)
  {
  }

  /**
   * On an error thrown straight by the database, by contrast, the service's
   * catch blocks classify P2002 themselves, turn P2025 into NotFound on
   * update and remove, and rethrow anything else unchanged.
   */
  lemma ServiceCatchesOnRawErrors(e: StoreError, dto: CreateProductDto, id: int, patch: ProductPatch)
    ensures e.KnownRequest? && e.code == UniqueViolationCode ==>
      && ServiceCreateCatch(Other(e), dto) == Conflict(ServiceConflict(e.target, Some(dto.name), dto.specifications))
      && ServiceUpdateCatch(Other(e), id, patch) == Conflict(ServiceConflict(e.target, patch.name, patch.specifications))
      && ServiceRemoveCatch(Other(e), id) == Other(e)
    ensures e.KnownRequest? && e.code == RecordNotFoundCode ==>
      && ServiceCreateCatch(Other(e), dto) == Other(e)
      && ServiceUpdateCatch(Other(e), id, patch) == NotFound(ProductNotFound(id))
      && ServiceRemoveCatch(Other(e), id) == NotFound(ProductNotFound(id))
    ensures !(e.KnownRequest? && (e.code == UniqueViolationCode || e.code == RecordNotFoundCode)) ==>
      && ServiceCreateCatch(Other(e), dto) == Other(e)
      && ServiceUpdateCatch(Other(e), id, patch) == Other(e)
      && ServiceRemoveCatch(Other(e), id) == Other(e)
  {
  }
}
