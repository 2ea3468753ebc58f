/**
 * Order lines as the ordering pages store and show them: the chosen options
 * of a line, the option text "group: value, ...", and line totals.
 */
module OrderLines {
  import opened Wrappers
  import Text

  /** One chosen option of a line: `{ groupName, optionValue, priceAdjustment }`. */
  datatype SelectedOption = SelectedOption(groupName: string, optionValue: string, priceAdjustment: int)

  /**
   * An order line as the backend returns it for the order-status and
   * order-history views; `optionPriceAdjustment` may be missing.
   */
  datatype OrderItem = OrderItem(
    name: string,
    price: int,
    quantity: int,
    optionPriceAdjustment: Option<int>,
    selectedOptions: seq<SelectedOption>)

  /** `${opt.groupName}: ${opt.optionValue}` */
  function OptionLabel(o: SelectedOption): string {
    o.groupName + ": " + o.optionValue
  }

  function OptionLabels(opts: seq<SelectedOption>): (r: seq<string>)
    ensures |r| == |opts|
    ensures forall k :: 0 <= k < |opts| ==> r[k] == OptionLabel(opts[k])
  {
    if opts == [] then [] else [OptionLabel(opts[0])] + OptionLabels(opts[1..])
  }

  /** `selectedOptions.map(opt => ...).join(', ')` */
  function OptionsText(opts: seq<SelectedOption>): string {
    Text.Join(OptionLabels(opts), ", ")
  }

  /** `item.optionPriceAdjustment || 0` */
  function AdjustmentOrZero(a: Option<int>): int {
    OrDefault(a, 0)
  }

  /** `(price + (optionPriceAdjustment || 0)) * quantity` */
  function ItemTotal(it: OrderItem): int {
    (it.price + AdjustmentOrZero(it.optionPriceAdjustment)) * it.quantity
  }

  /** The sum of `ItemTotal` over a list of lines. */
  function SumItemTotals(items: seq<OrderItem>): int {
    if items == [] then 0 else ItemTotal(items[0]) + SumItemTotals(items[1..])
  }

  /** Adding a line at the end adds its total. */
  lemma {:induction false} SumItemTotalsSnoc(items: seq<OrderItem>, it: OrderItem)
    ensures SumItemTotals(items + [it]) == SumItemTotals(items) + ItemTotal(it)
  {
    if items != [] {
      assert (items + [it])[1..] == items[1..] + [it];
      SumItemTotalsSnoc(items[1..], it);
    }
  }

  /** One more line of a list adds that line's total to the prefix's. */
  lemma SumItemTotalsPrefix(items: seq<OrderItem>, i: nat)
    requires i < |items|
    ensures SumItemTotals(items[..i + 1]) == SumItemTotals(items[..i]) + ItemTotal(items[i])
  {
    SumItemTotalsSnoc(items[..i], items[i]);
    assert items[..i + 1] == items[..i] + [items[i]];
  }

  /** Every line carries an explicit price adjustment. */
  predicate AllAdjustmentsPresent(items: seq<OrderItem>) {
    forall k :: 0 <= k < |items| ==> items[k].optionPriceAdjustment.Some?
  }
}
