/** The stock badge shown with a product: sold out, low stock, or in stock. */
module Format {
  datatype Variant = Default | Warning | Destructive

  datatype StockStatus = StockStatus(text: string, variant: Variant)

  const LowStockBelow := 10

  /** The badge text that goes with each variant. */
  function VariantText(v: Variant): string {
    match v
    case Destructive => "품절"
    case Warning => "재고 부족"
    case Default => "재고 있음"
  }

  /** `getStockStatus`: exactly zero is sold out, anything else below ten (negatives too) is low. */
  function GetStockStatus(stockQuantity: int): (r: StockStatus)
    ensures r.text == VariantText(r.variant)
    ensures r.variant == Destructive <==> stockQuantity == 0
    ensures r.variant == Warning <==> stockQuantity != 0 && stockQuantity < LowStockBelow
    ensures r.variant == Default <==> stockQuantity >= LowStockBelow
  {
    if stockQuantity == 0 then StockStatus("품절", Destructive)
    else if stockQuantity < LowStockBelow then StockStatus("재고 부족", Warning)
    else StockStatus("재고 있음", Default)
  }

  /** How good a badge is: sold out, then low, then in stock. */
  function Rank(v: Variant): nat {
    match v
    case Destructive => 0
    case Warning => 1
    case Default => 2
  }

  /** For stock counts that are not negative, more stock never shows a worse badge. */
  lemma MoreStockNeverWorse(a: int, b: int)
    requires 0 <= a <= b
    ensures Rank(GetStockStatus(a).variant) <= Rank(GetStockStatus(b).variant)
  {
  }

  /** Below zero the badge says low stock, not sold out. */
  lemma NegativeStockIsLow(stockQuantity: int)
    requires stockQuantity < 0
    ensures GetStockStatus(stockQuantity) == StockStatus("재고 부족", Warning)
  {
  }
}
