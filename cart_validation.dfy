/**
 * The cart request schemas: an id in UUID form and a quantity that is a
 * whole number from 1 to 999. Quantities arrive as JavaScript numbers, so
 * they are `real` here and "integer" is a check of its own.
 */
module CartValidation {
  import opened Wrappers

  datatype Issue =
    | BadProductId | BadCartItemId
    | NotInteger | BelowMin | AboveMax

  function Message(i: Issue): string {
    match i
    case BadProductId => "올바른 상품 ID 형식이 아닙니다"
    case BadCartItemId => "올바른 장바구니 아이템 ID 형식이 아닙니다"
    case NotInteger => "수량은 정수여야 합니다"
    case BelowMin => "수량은 1개 이상이어야 합니다"
    case AboveMax => "수량은 999개 이하여야 합니다"
  }

  const QuantityMin: real := 1.0
  const QuantityMax: real := 999.0

  predicate IsHexDigit(c: char) {
    '0' <= c <= '9' || 'a' <= c <= 'f' || 'A' <= c <= 'F'
  }

  /** Hyphens sit after the 8th, 12th, 16th and 20th digit of a 36-character id. */
  predicate IsHyphenPosition(i: int) {
    i == 8 || i == 13 || i == 18 || i == 23
  }

  /** The textual UUID form: groups of 8, 4, 4, 4 and 12 hex digits joined by hyphens. */
  predicate IsUuid(s: string) {
    |s| == 36 && forall i :: 0 <= i < 36 ==> if IsHyphenPosition(i) then s[i] == '-' else IsHexDigit(s[i])
  }

  predicate IsInteger(q: real) {
    q.Floor as real == q
  }

  /** The quantity checks, all run, in chain order. */
  function QuantityIssues(q: real): (r: seq<Issue>)
    ensures r == [] <==> IsInteger(q) && QuantityMin <= q <= QuantityMax
    ensures IsInteger(q) ==> (r == [] <==> 1 <= q.Floor <= 999)
  {
    (if IsInteger(q) then [] else [NotInteger])
      + (if q < QuantityMin then [BelowMin] else [])
      + (if q > QuantityMax then [AboveMax] else [])
  }

  /** `addToCartSchema`: the first issue, or `None` when the request is accepted. */
  function ValidateAddToCart(productId: string, quantity: real): (r: Option<Issue>)
    ensures r.None? <==> IsUuid(productId) && IsInteger(quantity) && QuantityMin <= quantity <= QuantityMax
    ensures !IsUuid(productId) ==> r == Some(BadProductId)
  {
    var issues := (if IsUuid(productId) then [] else [BadProductId]) + QuantityIssues(quantity);
    if issues == [] then None else Some(issues[0])
  }

  /** `updateCartQuantitySchema`: the same quantity rule for a cart line id. */
  function ValidateUpdateQuantity(cartItemId: string, quantity: real): (r: Option<Issue>)
    ensures r.None? <==> IsUuid(cartItemId) && IsInteger(quantity) && QuantityMin <= quantity <= QuantityMax
    ensures !IsUuid(cartItemId) ==> r == Some(BadCartItemId)
  {
    var issues := (if IsUuid(cartItemId) then [] else [BadCartItemId]) + QuantityIssues(quantity);
    if issues == [] then None else Some(issues[0])
  }

  /** Both schemas accept 1 and 999 and reject 0, 1000 and a fraction, each with its own issue. */
  lemma QuantityBoundaries(id: string)
    requires IsUuid(id)
    ensures ValidateAddToCart(id, 1.0).None? && ValidateAddToCart(id, 999.0).None?
    ensures ValidateAddToCart(id, 0.0) == Some(BelowMin) && ValidateAddToCart(id, 1000.0) == Some(AboveMax)
    ensures ValidateAddToCart(id, 1.5) == Some(NotInteger)
    ensures ValidateUpdateQuantity(id, 1.0).None? && ValidateUpdateQuantity(id, 999.0).None?
    ensures ValidateUpdateQuantity(id, 0.0) == Some(BelowMin) && ValidateUpdateQuantity(id, 1000.0) == Some(AboveMax)
    ensures ValidateUpdateQuantity(id, 1.5) == Some(NotInteger)
  {
    assert QuantityIssues(1.5) == [NotInteger] by {
      assert (1.5).Floor == 1;
    }
  }

  /** The two schemas agree on every quantity: they differ only in which id they name. */
  lemma SchemasAgreeOnQuantity(id: string, quantity: real)
    requires IsUuid(id)
    ensures ValidateAddToCart(id, quantity) == ValidateUpdateQuantity(id, quantity)
  {
  }

  /** A sample id of the accepted form. */
  lemma SampleUuidAccepted()
    ensures IsUuid("123e4567-e89b-12d3-a456-426614174000")
    ensures !IsUuid("123e4567e89b12d3a456426614174000")
  {
    var s := "123e4567-e89b-12d3-a456-426614174000";
    assert forall i :: 0 <= i < 36 ==> if IsHyphenPosition(i) then s[i] == '-' else IsHexDigit(s[i]);
  }
}
