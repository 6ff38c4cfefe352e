/**
 * The payment hand-off. The checkout page gives the payment provider the
 * order id with an "order-" prefix; the success page strips that prefix
 * again and confirms the order, which is the order status update of the
 * order actions with status `Confirmed`.
 */
module Payment {
  import opened Wrappers
  import opened ShopTypes
  import opened Store
  import OrderActions
  import opened Catalog

  const OrderPrefix := "order-"
  const NoOrderMessage := "주문 정보가 없습니다."
  const UpdateFailedMessage := "주문 상태 업데이트에 실패했습니다."

  /** The id handed to the payment provider for an order. */
  function PaymentOrderId(id: OrderId): string {
    OrderPrefix + id
  }

  predicate StartsWith(s: string, prefix: string) {
    |prefix| <= |s| && s[..|prefix|] == prefix
  }

  /**
   * JavaScript's `s.replace(pattern, replacement)` with a string pattern:
   * only the leftmost occurrence is replaced.
   */
  function ReplaceFirst(s: string, pattern: string, replacement: string): string
    decreases |s|
  {
    if |s| < |pattern| then s
    else if s[..|pattern|] == pattern then replacement + s[|pattern|..]
    else [s[0]] + ReplaceFirst(s[1..], pattern, replacement)
  }

  /** `pattern` occurs at `i` and nowhere to the left of it. */
  predicate LeftmostAt(pattern: string, s: string, i: int) {
    OccursAt(pattern, s, i) && forall j :: 0 <= j < i ==> !OccursAt(pattern, s, j)
  }

  lemma OccursAtShift(pattern: string, s: string, i: int)
    requires s != [] && 0 <= i
    ensures OccursAt(pattern, s[1..], i) <==> OccursAt(pattern, s, i + 1)
  {
    if 0 <= i <= |s[1..]| - |pattern| {
      assert s[1..][i..i + |pattern|] == s[i + 1..i + 1 + |pattern|];
    }
  }

  lemma LeftmostShift(pattern: string, s: string, i: int)
    requires LeftmostAt(pattern, s, i) && i > 0
    ensures s != [] && LeftmostAt(pattern, s[1..], i - 1)
  {
    OccursAtShift(pattern, s, i - 1);
    forall j | 0 <= j < i - 1 ensures !OccursAt(pattern, s[1..], j) {
      OccursAtShift(pattern, s, j);
    }
  }

  /** Concatenation step of the leftmost-replacement proof. */
  lemma ReplaceFirstStep(s: string, pattern: string, replacement: string, i: int)
    requires 0 < i <= |s| - |pattern|
    requires s[..|pattern|] != pattern
    requires ReplaceFirst(s[1..], pattern, replacement) == s[1..][..i - 1] + replacement + s[1..][i - 1 + |pattern|..]
    ensures ReplaceFirst(s, pattern, replacement) == s[..i] + replacement + s[i + |pattern|..]
  {
    var tail := s[1..];
    var before, after := tail[..i - 1], tail[i - 1 + |pattern|..];
    assert ReplaceFirst(s, pattern, replacement) == [s[0]] + (before + replacement + after);
    assert before == s[1..i];
    assert after == s[i + |pattern|..];
    assert s[..i] == [s[0]] + before;
  }

  /** The leftmost occurrence is the one replaced. */
  lemma {:induction false} ReplaceFirstReplacesLeftmost(s: string, pattern: string, replacement: string, i: int)
    requires LeftmostAt(pattern, s, i)
    ensures ReplaceFirst(s, pattern, replacement) == s[..i] + replacement + s[i + |pattern|..]
    decreases |s|
  {
    if i > 0 {
      assert !OccursAt(pattern, s, 0);
      LeftmostShift(pattern, s, i);
      ReplaceFirstReplacesLeftmost(s[1..], pattern, replacement, i - 1);
      ReplaceFirstStep(s, pattern, replacement, i);
    }
  }

  /** Without an occurrence the string is kept. */
  lemma {:induction false} ReplaceFirstWithoutOccurrence(s: string, pattern: string, replacement: string)
    requires forall i :: !OccursAt(pattern, s, i)
    ensures ReplaceFirst(s, pattern, replacement) == s
    decreases |s|
  {
    if |s| >= |pattern| {
      assert !OccursAt(pattern, s, 0);
      forall j | 0 <= j ensures !OccursAt(pattern, s[1..], j) {
        OccursAtShift(pattern, s, j);
      }
      ReplaceFirstWithoutOccurrence(s[1..], pattern, replacement);
    }
  }

  /** The id the success page confirms: the prefix goes when the id starts with it. */
  function StripOrderPrefix(orderId: string): (r: string)
    ensures StartsWith(orderId, OrderPrefix) ==> r == orderId[|OrderPrefix|..]
    ensures !StartsWith(orderId, OrderPrefix) ==> r == orderId
  {
    if StartsWith(orderId, OrderPrefix) then
      assert LeftmostAt(OrderPrefix, orderId, 0);
      ReplaceFirstReplacesLeftmost(orderId, OrderPrefix, "", 0);
      ReplaceFirst(orderId, OrderPrefix, "") else orderId
  }

  /** Stripping undoes the prefixing for every order id, also for one that itself starts with "order-". */
  lemma StripInvertsPrefix(id: OrderId)
    ensures StripOrderPrefix(PaymentOrderId(id)) == id
    ensures StartsWith(id, OrderPrefix) ==> StripOrderPrefix(PaymentOrderId(id)) != StripOrderPrefix(id)
  {
    assert PaymentOrderId(id)[..|OrderPrefix|] == OrderPrefix;
    assert PaymentOrderId(id)[|OrderPrefix|..] == id;
  }

  /** The link to the order's page. */
  function DetailHref(orderId: string): string {
    "/orders/" + StripOrderPrefix(orderId)
  }

  /** The link opens the order the provider was paid for. */
  lemma DetailHrefNamesPaidOrder(id: OrderId)
    ensures DetailHref(PaymentOrderId(id)) == "/orders/" + id
  {
    StripInvertsPrefix(id);
  }

  /** The failure text shown: the action's message, or a fallback when it is empty. */
  function ErrorText(e: OrderActions.OrderError): string {
    var m := OrderActions.Message(e);
    if m != "" then m else UpdateFailedMessage
  }

  /** Every failure of the status update carries a message, so the fallback text is never shown. */
  lemma ErrorTextIsActionMessage(e: OrderActions.OrderError)
    ensures ErrorText(e) == OrderActions.Message(e)
  {
    if e.ValidationFailed? {
      match e.issue
      case _ =>
    }
  }

  /** The state of the payment success page. */
  class PaymentSuccess {
    const orderId: Option<string>
    var isProcessing: bool
    var isSuccess: bool
    var error: Option<string>

    constructor (orderId: Option<string>)
      ensures this.orderId == orderId
      ensures isProcessing && !isSuccess && error.None?
    {
      this.orderId := orderId;
      isProcessing, isSuccess, error := true, false, None;
    }

    /**
     * `processPayment`: without an order id it reports that and calls
     * nothing; otherwise it confirms the stripped id and records success
     * or the failure text. Processing ends either way. `outcome` is the
     * status update's result, `None` when no update is made.
     */
    method ProcessPayment(db: Db, caller: Option<UserId>) returns (outcome: Option<OrderActions.StatusResult>)
      requires db.Valid()
      modifies this, db
      ensures db.Valid()
      ensures !isProcessing
      ensures (orderId.None? || orderId.value == "") ==>
                outcome.None? && error == Some(NoOrderMessage) && isSuccess == old(isSuccess) &&
                db.State() == old(db.State())
      ensures (orderId.Some? && orderId.value != "") ==>
                outcome.Some? &&
                Step(outcome.value, db.State()) ==
                  OrderActions.AfterStatusUpdate(old(db.State()), caller, StripOrderPrefix(orderId.value), Confirmed)
      ensures outcome.Some? && outcome.value.StatusUpdated? ==> isSuccess && error == old(error)
      ensures outcome.Some? && outcome.value.StatusFailed? ==>
                isSuccess == old(isSuccess) && error == Some(ErrorText(outcome.value.error))
    {
      if orderId.None? || orderId.value == "" {
        error := Some(NoOrderMessage);
        isProcessing := false;
        return None;
      }
      var actualOrderId := StripOrderPrefix(orderId.value);
      var result := OrderActions.UpdateOrderStatus(db, caller, actualOrderId, Confirmed);
      if result.StatusUpdated? {
        isSuccess := true;
      } else {
        error := Some(ErrorText(result.error));
      }
      isProcessing := false;
      outcome := Some(result);
    }
  }
}
