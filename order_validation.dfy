/**
 * The create-order request schema. Each field's checks run in the order the
 * schema chains them and every failing check reports an issue; the object
 * schema visits its fields in declaration order, and the action reports the
 * first issue of the whole request.
 */
module OrderValidation {
  import opened Wrappers
  import opened ShopTypes

  datatype Issue =
    | NameEmpty | NameTooLong
    | PhoneEmpty | PhoneFormat | PhoneTooLong
    | PostalCodeEmpty | PostalCodeFormat | PostalCodeTooLong
    | AddressEmpty | AddressTooLong
    | AddressDetailTooLong
    | OrderNoteTooLong

  /** The message each issue carries. */
  function Message(i: Issue): string {
    match i
    case NameEmpty => "수령인 이름을 입력해주세요"
    case NameTooLong => "이름은 50자 이하여야 합니다"
    case PhoneEmpty => "연락처를 입력해주세요"
    case PhoneFormat => "올바른 연락처 형식이 아닙니다"
    case PhoneTooLong => "연락처는 20자 이하여야 합니다"
    case PostalCodeEmpty => "우편번호를 입력해주세요"
    case PostalCodeFormat => "올바른 우편번호 형식이 아닙니다"
    case PostalCodeTooLong => "우편번호는 10자 이하여야 합니다"
    case AddressEmpty => "주소를 입력해주세요"
    case AddressTooLong => "주소는 200자 이하여야 합니다"
    case AddressDetailTooLong => "상세 주소는 200자 이하여야 합니다"
    case OrderNoteTooLong => "주문 메모는 500자 이하여야 합니다"
  }

  const NameMax := 50
  const PhoneMax := 20
  const PostalCodeMax := 10
  const AddressMax := 200
  const AddressDetailMax := 200
  const OrderNoteMax := 500

  predicate IsDigitOrHyphen(c: char) {
    '0' <= c <= '9' || c == '-'
  }

  /** A matcher for the pattern `^[0-9-]+$`, one character at a time. */
  function MatchesDigitsOrHyphens(s: string): bool
    decreases |s|
  {
    |s| > 0 && IsDigitOrHyphen(s[0]) && (|s| == 1 || MatchesDigitsOrHyphens(s[1..]))
  }

  /** The pattern holds exactly for non-empty strings of digits and hyphens. */
  lemma {:induction false} MatchesDigitsOrHyphensExactly(s: string)
    ensures MatchesDigitsOrHyphens(s) <==> |s| > 0 && forall i :: 0 <= i < |s| ==> IsDigitOrHyphen(s[i])
    decreases |s|
  {
    if |s| > 1 {
      MatchesDigitsOrHyphensExactly(s[1..]);
      assert forall i :: 1 <= i < |s| ==> s[i] == s[1..][i - 1];
    }
  }

  /** `[issue]` when `fails`, else nothing: one check of a chain. */
  function Check(fails: bool, issue: Issue): seq<Issue> {
    if fails then [issue] else []
  }

  function NameIssues(name: string): (r: seq<Issue>)
    ensures r == [] <==> 1 <= |name| <= NameMax
  {
    Check(|name| < 1, NameEmpty) + Check(|name| > NameMax, NameTooLong)
  }

  function PhoneIssues(phone: string): (r: seq<Issue>)
    ensures r == [] <==> 1 <= |phone| <= PhoneMax && forall i :: 0 <= i < |phone| ==> IsDigitOrHyphen(phone[i])
    ensures |phone| == 0 ==> r[0] == PhoneEmpty
  {
    MatchesDigitsOrHyphensExactly(phone);
    Check(|phone| < 1, PhoneEmpty) + Check(!MatchesDigitsOrHyphens(phone), PhoneFormat)
      + Check(|phone| > PhoneMax, PhoneTooLong)
  }

  function PostalCodeIssues(code: string): (r: seq<Issue>)
    ensures r == [] <==> 1 <= |code| <= PostalCodeMax && forall i :: 0 <= i < |code| ==> IsDigitOrHyphen(code[i])
    ensures |code| == 0 ==> r[0] == PostalCodeEmpty
  {
    MatchesDigitsOrHyphensExactly(code);
    Check(|code| < 1, PostalCodeEmpty) + Check(!MatchesDigitsOrHyphens(code), PostalCodeFormat)
      + Check(|code| > PostalCodeMax, PostalCodeTooLong)
  }

  function AddressLineIssues(address: string): (r: seq<Issue>)
    ensures r == [] <==> 1 <= |address| <= AddressMax
  {
    Check(|address| < 1, AddressEmpty) + Check(|address| > AddressMax, AddressTooLong)
  }

  /** An optional field is only checked when present. */
  function AddressDetailIssues(detail: Option<string>): (r: seq<Issue>)
    ensures r == [] <==> detail.None? || |detail.value| <= AddressDetailMax
  {
    if detail.None? then [] else Check(|detail.value| > AddressDetailMax, AddressDetailTooLong)
  }

  function OrderNoteIssues(note: Option<string>): (r: seq<Issue>)
    ensures r == [] <==> note.None? || |note.value| <= OrderNoteMax
  {
    if note.None? then [] else Check(|note.value| > OrderNoteMax, OrderNoteTooLong)
  }

  /** The address schema's issues, fields in declaration order. */
  function ShippingAddressIssues(a: ShippingAddress): seq<Issue> {
    NameIssues(a.name) + PhoneIssues(a.phone) + PostalCodeIssues(a.postalCode)
      + AddressLineIssues(a.address) + AddressDetailIssues(a.addressDetail)
  }

  function RequestIssues(r: CreateOrderRequest): seq<Issue> {
    ShippingAddressIssues(r.shippingAddress) + OrderNoteIssues(r.orderNote)
  }

  /** Every field rule, stated field by field. */
  ghost predicate ValidShippingAddress(a: ShippingAddress) {
    && 1 <= |a.name| <= NameMax
    && 1 <= |a.phone| <= PhoneMax && (forall i :: 0 <= i < |a.phone| ==> IsDigitOrHyphen(a.phone[i]))
    && 1 <= |a.postalCode| <= PostalCodeMax && (forall i :: 0 <= i < |a.postalCode| ==> IsDigitOrHyphen(a.postalCode[i]))
    && 1 <= |a.address| <= AddressMax
    && (a.addressDetail.None? || |a.addressDetail.value| <= AddressDetailMax)
  }

  ghost predicate ValidRequest(r: CreateOrderRequest) {
    ValidShippingAddress(r.shippingAddress) && (r.orderNote.None? || |r.orderNote.value| <= OrderNoteMax)
  }

  /** `safeParse`: the request itself, or the first issue. */
  function Validate(r: CreateOrderRequest): (v: Result<CreateOrderRequest, Issue>)
    ensures v.Ok? <==> ValidRequest(r)
    ensures v.Ok? ==> v.value == r
    ensures v.Err? ==> v.error == RequestIssues(r)[0]
  {
    var issues := RequestIssues(r);
    if issues == [] then Ok(r) else Err(issues[0])
  }

  /** Fields are reported in order: a bad name hides every later problem. */
  lemma NameReportedFirst(r: CreateOrderRequest)
    requires !(1 <= |r.shippingAddress.name| <= NameMax)
    ensures Validate(r) == Err(if |r.shippingAddress.name| < 1 then NameEmpty else NameTooLong)
  {
  }

  /** An empty phone reports the missing value, not the format, though both checks fail. */
  lemma EmptyPhoneReportsEmpty(r: CreateOrderRequest)
    requires 1 <= |r.shippingAddress.name| <= NameMax && r.shippingAddress.phone == ""
    ensures Validate(r) == Err(PhoneEmpty)
  {
    assert NameIssues(r.shippingAddress.name) == [];
  }

  /** The note is only looked at once the whole address is valid. */
  lemma NoteReportedLast(r: CreateOrderRequest)
    requires ValidShippingAddress(r.shippingAddress)
    requires r.orderNote.Some? && |r.orderNote.value| > OrderNoteMax
    ensures Validate(r) == Err(OrderNoteTooLong)
  {
    assert ShippingAddressIssues(r.shippingAddress) == [];
  }
}
