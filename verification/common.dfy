/**
 * Values shared by every part of the shop backend model: optional values,
 * the outcome of an operation, the errors the services raise and the errors
 * the database client throws.
 */
module Common {

  datatype Option<+T> = None | Some(value: T)

  /**
   * The `meta.target` of a unique-constraint error: the name of the violated
   * constraint, the list of fields it covers, or absent (null or undefined).
   */
  datatype Target = TargetName(name: string) | TargetFields(fields: seq<string>) | NoTarget

  /**
   * An error thrown by the database client: a known request error with its
   * code (`P2002`, `P2025`, ...), its target and its message, or any other
   * error (a lost connection, a TypeError in the caller, ...).
   */
  datatype StoreError =
    | KnownRequest(code: string, target: Target, message: string)
    | Unexpected(description: string)

  /** Code of a unique-constraint violation. */
  const UniqueViolationCode: string := "P2002"
  /** Code of a foreign-key violation. */
  const ForeignKeyCode: string := "P2003"
  /** Code of "the record to update or delete does not exist". */
  const RecordNotFoundCode: string := "P2025"

  /** What the in-memory tables throw when an update or delete matches no row. */
  const MissingRecord: StoreError := KnownRequest(RecordNotFoundCode, NoTarget, "")
  /** What the in-memory tables throw when a row refers to a parent that does not exist. */
  const MissingParent: StoreError := KnownRequest(ForeignKeyCode, NoTarget, "")

  /** The reason of a NotFoundException; one constructor per message of the source. */
  datatype NotFoundReason =
    | CartNotFound(userId: int)             // "Cart not found for user ID: <userId>."
    | EmptyCart                             // "Cannot create order from an empty cart."
    | NonPositiveTotal                      // "Cannot create order with zero or negative total amount. ..."
    | OrderNotFound(orderId: int, userId: int) // "Order with ID #<orderId> not found for user ID: <userId>."
    | NoProductWithId(id: int)              // "Product with id <id> not found"
    | ProductNotFound(id: int)              // "Product with ID #<id> not found"

  /** The reason of a ConflictException; one constructor per message of the source. */
  datatype ConflictReason =
    | OrderAlreadyConfirmed(orderId: int)   // "Order with ID #<orderId> is already confirmed."
    | ProductNameExists(name: Option<string>) // "Product with name '<name>' already exists."
    | DuplicateSpecName(spec: string, product: Option<string>) // "Duplicate specification name '<spec>' for product '<product>'."
    | SpecNameConflict(product: Option<string>) // "A unique specification name conflict occurred for product '<product>'. ..."
    | UnknownConstraint                     // "Unknown constraint violation."
    | UniqueViolation(target: Target)       // "A unique constraint violation occurred. Target: <target>. ..."
    | ProductNameTaken(name: Option<string>) // "Product name '<name>' already exists."
    | UniqueFieldsViolated(fields: Option<seq<string>>) // "A unique constraint was violated. Fields: <fields>"

  /** What an operation throws: an HTTP exception, or a database error passed through unchanged. */
  datatype Error =
    | NotFound(reason: NotFoundReason)
    | Conflict(conflict: ConflictReason)
    | Other(raw: StoreError)

  datatype Result<+T> = Ok(value: T) | Err(error: Error)

  /** True iff the error is a known database error with the given code. */
  predicate HasCode(e: Error, code: string) {
    e.Other? && e.raw.KnownRequest? && e.raw.code == code
  }

  predicate StartsWith(s: string, prefix: string) {
    |prefix| <= |s| && s[..|prefix|] == prefix
  }

  /** `s.includes(part)`: `part` occurs somewhere in `s`. */
  predicate Contains(s: string, part: string): (r: bool)
    ensures r ==> |part| <= |s|
    ensures part == [] ==> r
    decreases |s|
  {
    StartsWith(s, part) || (|s| > 0 && Contains(s[1..], part))
  }

  /** `s.toLowerCase()` on the ASCII letters. */
  function ToLower(s: string): string {
    seq(|s|, i requires 0 <= i < |s| => if 'A' <= s[i] <= 'Z' then (s[i] as int + 32) as char else s[i])
  }
}
