/**
 * The customer ordering page (product_order): the product modal with its
 * option selects, the shopping cart keyed by product and chosen options, the
 * order submission guards, the reset after a successful order, and the
 * order-history totals.
 */
module ProductOrder {
  import opened Wrappers
  import opened Text
  import opened OrderLines

  /** At most this many pieces of one cart line. */
  const MaxItemQuantity: int := 10

  /** The value of the "no option" entry each option select starts with. */
  const NoOption: string := "\U{306A}\U{3057}"

  datatype OptionGroup = OptionGroup(name: string, values: seq<string>, prices: seq<int>)

  datatype Product = Product(id: string, name: string, price: int, options: seq<OptionGroup>)

  /** Each value has its price adjustment, as the product forms guarantee. */
  predicate WellFormedGroup(g: OptionGroup) {
    |g.values| == |g.prices|
  }

  /** One `<option>` of an option select: its value part and its price part. */
  datatype ModalEntry = ModalEntry(value: string, price: int)

  /**
   * The entries of the select built for one option group: "no option" at
   * price 0 first, then every value of the group with its own price.
   */
  function ModalEntries(g: OptionGroup): (r: seq<ModalEntry>)
    requires WellFormedGroup(g)
    ensures |r| == |g.values| + 1
    ensures r[0] == ModalEntry(NoOption, 0)
    ensures forall k :: 0 <= k < |g.values| ==> r[k + 1] == ModalEntry(g.values[k], g.prices[k])
  {
    [ModalEntry(NoOption, 0)] + ValueEntries(g.values, g.prices)
  }

  function ValueEntries(values: seq<string>, prices: seq<int>): (r: seq<ModalEntry>)
    requires |values| == |prices|
    ensures |r| == |values|
    ensures forall k :: 0 <= k < |values| ==> r[k] == ModalEntry(values[k], prices[k])
  {
    if values == [] then [] else [ModalEntry(values[0], prices[0])] + ValueEntries(values[1..], prices[1..])
  }

  /** The text of an option element: the value and the price joined by a bar. */
  function EntryText(e: ModalEntry): string {
    e.value + "|" + Show(e.price)
  }

  /**
   * What the page reads back from an option element's text: the piece
   * before the first bar, and `parseInt` of the piece after it (None, NaN,
   * when there is none).
   */
  function ReadEntry(text: string): (string, Option<int>) {
    var parts := Split(text, '|');
    (parts[0], if |parts| > 1 then ParseInt(parts[1]) else None)
  }

  /** A value without a bar and its price are read back from the option text unchanged. */
  lemma EntryTextRoundTrip(e: ModalEntry)
    requires '|' !in e.value
    ensures ReadEntry(EntryText(e)) == (e.value, Some(e.price))
  {
    var shown := Show(e.price);
    assert '|' !in shown;
    SplitJoin([e.value, shown], '|');
    assert Join([e.value, shown], "|") == EntryText(e);
    ParseShow(e.price);
  }

  /**
   * A value with one bar in it is cut at the bar: the page reads the piece
   * before it as the value and parses the piece after it as the price.
   */
  lemma BarInValueSplits(before: string, after: string, price: int)
    requires '|' !in before && '|' !in after
    ensures ReadEntry(EntryText(ModalEntry(before + "|" + after, price))) == (before, ParseInt(after))
  {
    var shown := Show(price);
    assert EntryText(ModalEntry(before + "|" + after, price)) == before + ['|'] + (after + ['|'] + shown);
    SplitAfterPrefix(before, '|', after + ['|'] + shown);
    SplitAfterPrefix(after, '|', shown);
  }

  /** "S|M" at 100 yen is read back as "S" with a NaN price. */
  lemma BarInValueCut()
    ensures ReadEntry(EntryText(ModalEntry("S|M", 100))) == ("S", None)
  {
    assert "S|M" == "S" + "|" + "M";
    BarInValueSplits("S", "M", 100);
    LetterIsNaN();
  }

  lemma LetterIsNaN()
    ensures ParseInt("M") == None
  {
    NoLeadingSpace("M");
    assert DigitRun("M") == 0;
  }

  /**
   * What one option select of the open modal reads when the customer adds to
   * the cart: the text of its label (`"<group name>:"`) and the chosen entry.
   */
  datatype ModalChoice = ModalChoice(labelText: string, entry: ModalEntry)

  /** The label of the select built for a group. */
  function GroupLabel(g: OptionGroup): string {
    g.name + ":"
  }

  /** The group name read back from a label: its first colon removed. */
  function GroupName(labelText: string): string {
    RemoveFirst(labelText, ':')
  }

  /** A group name without a colon is read back unchanged from its label. */
  lemma GroupNameOfLabel(g: OptionGroup)
    requires ':' !in g.name
    ensures GroupName(GroupLabel(g)) == g.name
  {
    RemoveFirstAppended(g.name, ':');
  }

  /** The option a choice is stored as: its group name read from the label, its value and its price. */
  function StoredOption(c: ModalChoice): SelectedOption {
    SelectedOption(GroupName(c.labelText), c.entry.value, c.entry.price)
  }

  /**
   * The options stored with a cart line: every choice except "no option", in
   * select order. An option is stored exactly when some choice other than
   * "no option" is stored as it.
   */
  function SelectedOptions(choices: seq<ModalChoice>): (r: seq<SelectedOption>)
    ensures |r| <= |choices|
    ensures forall k :: 0 <= k < |r| ==> r[k].optionValue != NoOption
    ensures forall o :: o in r <==>
      (exists k :: 0 <= k < |choices| && choices[k].entry.value != NoOption && o == StoredOption(choices[k]))
  {
    if choices == [] then []
    else
      var c := choices[0];
      var rest := SelectedOptions(choices[1..]);
      assert forall k :: 1 <= k < |choices| ==> choices[k] == choices[1..][k - 1];
      if c.entry.value != NoOption then [StoredOption(c)] + rest else rest
  }

  /**
   * Storing the choices of two runs of selects stores the first run's
   * options, then the second's: together with the single-select case this
   * fixes the order of the stored options.
   */
  lemma {:induction false} SelectedOptionsAppend(a: seq<ModalChoice>, b: seq<ModalChoice>)
    ensures SelectedOptions(a + b) == SelectedOptions(a) + SelectedOptions(b)
    ensures SelectedOptions([]) == []
    ensures |a| == 1 ==>
      SelectedOptions(a) == if a[0].entry.value != NoOption then [StoredOption(a[0])] else []
  {
    if a == [] {
      assert a + b == b;
    } else {
      assert (a + b)[0] == a[0] && (a + b)[1..] == a[1..] + b;
      SelectedOptionsAppend(a[1..], b);
      var head := if a[0].entry.value != NoOption then [StoredOption(a[0])] else [];
      assert SelectedOptions(a + b) == head + SelectedOptions(a[1..] + b);
      assert SelectedOptions(a) == head + SelectedOptions(a[1..]);
    }
  }

  /** The sum of the chosen entries' price parts, "no option" included. */
  function OptionAdjustment(choices: seq<ModalChoice>): int {
    if choices == [] then 0 else choices[0].entry.price + OptionAdjustment(choices[1..])
  }

  function SumAdjustments(opts: seq<SelectedOption>): int {
    if opts == [] then 0 else opts[0].priceAdjustment + SumAdjustments(opts[1..])
  }

  /**
   * The adjustment stored on a cart line is the sum of the stored options'
   * adjustments, as long as every "no option" entry is priced 0.
   */
  lemma {:induction false} AdjustmentOfSelected(choices: seq<ModalChoice>)
    requires forall k :: 0 <= k < |choices| && choices[k].entry.value == NoOption ==> choices[k].entry.price == 0
    ensures SumAdjustments(SelectedOptions(choices)) == OptionAdjustment(choices)
  {
    if choices != [] {
      AdjustmentOfSelected(choices[1..]);
    }
  }

  /** The price the modal shows: the base price plus every chosen price part. */
  function ModalPrice(p: Product, choices: seq<ModalChoice>): int {
    p.price + OptionAdjustment(choices)
  }

  /**
   * The price the modal shows is the unit price of the line the add creates,
   * and, when "no option" is priced 0, the base price plus the stored
   * options' adjustments.
   */
  lemma ModalPriceIsLinePrice(p: Product, choices: seq<ModalChoice>)
    ensures ModalPrice(p, choices) == NewItem(p, choices).price + NewItem(p, choices).optionPriceAdjustment
    ensures (forall k :: 0 <= k < |choices| && choices[k].entry.value == NoOption ==> choices[k].entry.price == 0)
      ==> ModalPrice(p, choices) == p.price + SumAdjustments(SelectedOptions(choices))
  {
    if forall k :: 0 <= k < |choices| && choices[k].entry.value == NoOption ==> choices[k].entry.price == 0 {
      AdjustmentOfSelected(choices);
    }
  }

  /** The quantity clamp of the modal's -/+ buttons. */
  function ChangeQuantity(currentInput: Option<int>, delta: int, minInput: Option<int>): (r: int)
    ensures r <= MaxItemQuantity
    ensures var v := OrDefault(currentInput, 1) + delta; var lo := OrDefault(minInput, 1);
      (lo <= v <= MaxItemQuantity ==> r == v)
      && (v < lo ==> r == if lo > MaxItemQuantity then MaxItemQuantity else lo)
      && (v > MaxItemQuantity ==> r == MaxItemQuantity)
  {
    var v := OrDefault(currentInput, 1) + delta;
    var lo := OrDefault(minInput, 1);
    var w := if v < lo then lo else v;
    if w > MaxItemQuantity then MaxItemQuantity else w
  }

  /** Identity of a cart line: the product and the options chosen for it. */
  datatype CartKey = CartKey(productId: string, options: seq<SelectedOption>)

  datatype CartItem = CartItem(
    id: string,
    name: string,
    price: int,
    selectedOptions: seq<SelectedOption>,
    optionPriceAdjustment: int,
    quantity: int)

  /** The line created for a product on its first add, before the quantity is added. */
  function NewItem(p: Product, choices: seq<ModalChoice>): CartItem {
    CartItem(p.id, p.name, p.price, SelectedOptions(choices), OptionAdjustment(choices), 0)
  }

  /** What a line adds to the shown total: nothing unless its quantity is positive. */
  function LineAmount(it: CartItem): int {
    if it.quantity > 0 then (it.price + it.optionPriceAdjustment) * it.quantity else 0
  }

  function LineCount(it: CartItem): int {
    if it.quantity > 0 then it.quantity else 0
  }

  predicate Covers(keys: seq<CartKey>, items: map<CartKey, CartItem>) {
    forall k :: k in keys ==> k in items
  }

  /** The total the cart shows, over the lines in insertion order. */
  function CartTotal(keys: seq<CartKey>, items: map<CartKey, CartItem>): int
    requires Covers(keys, items)
  {
    if keys == [] then 0
    else CartTotal(keys[..|keys| - 1], items) + LineAmount(items[keys[|keys| - 1]])
  }

  /** The piece count the cart shows. */
  function ItemCount(keys: seq<CartKey>, items: map<CartKey, CartItem>): int
    requires Covers(keys, items)
  {
    if keys == [] then 0
    else ItemCount(keys[..|keys| - 1], items) + LineCount(items[keys[|keys| - 1]])
  }

  /** A line of the order payload. */
  datatype OrderLine = OrderLine(id: string, name: string, price: int, quantity: int, selectedOptions: seq<SelectedOption>)

  /** The payload lines: every cart line with a positive quantity, in insertion order. */
  function OrderLinesOf(keys: seq<CartKey>, items: map<CartKey, CartItem>): (r: seq<OrderLine>)
    requires Covers(keys, items)
    ensures forall k :: 0 <= k < |r| ==> r[k].quantity > 0
  {
    if keys == [] then []
    else
      var it := items[keys[|keys| - 1]];
      OrderLinesOf(keys[..|keys| - 1], items)
        + (if it.quantity > 0 then [OrderLine(it.id, it.name, it.price, it.quantity, it.selectedOptions)] else [])
  }

  function SumQuantities(lines: seq<OrderLine>): int {
    if lines == [] then 0 else SumQuantities(lines[..|lines| - 1]) + lines[|lines| - 1].quantity
  }

  lemma SumQuantitiesAppend(a: seq<OrderLine>, b: seq<OrderLine>)
    ensures SumQuantities(a + b) == SumQuantities(a) + SumQuantities(b)
    decreases |b|
  {
    if b == [] {
      assert a + b == a;
    } else {
      assert (a + b)[..|a + b| - 1] == a + b[..|b| - 1];
      assert (a + b)[|a + b| - 1] == b[|b| - 1];
      SumQuantitiesAppend(a, b[..|b| - 1]);
    }
  }

  /**
   * The piece count is the sum of the payload's quantities, and the payload
   * is empty exactly when the count is 0.
   */
  lemma {:induction false} CountMatchesOrderLines(keys: seq<CartKey>, items: map<CartKey, CartItem>)
    requires Covers(keys, items)
    ensures ItemCount(keys, items) == SumQuantities(OrderLinesOf(keys, items))
    ensures ItemCount(keys, items) >= 0
    ensures OrderLinesOf(keys, items) == [] <==> ItemCount(keys, items) == 0
  {
    if keys != [] {
      var init := keys[..|keys| - 1];
      var it := items[keys[|keys| - 1]];
      CountMatchesOrderLines(init, items);
      var tail := if it.quantity > 0 then [OrderLine(it.id, it.name, it.price, it.quantity, it.selectedOptions)] else [];
      SumQuantitiesAppend(OrderLinesOf(init, items), tail);
      assert SumQuantities(tail) == LineCount(it) by {
        if tail != [] {
          assert tail[..0] == [];
        }
      }
      SumQuantitiesNonNegative(OrderLinesOf(init, items));
    }
  }

  lemma SumQuantitiesNonNegative(lines: seq<OrderLine>)
    requires forall k :: 0 <= k < |lines| ==> lines[k].quantity > 0
    ensures SumQuantities(lines) >= 0
    ensures SumQuantities(lines) == 0 ==> lines == []
    decreases |lines|
  {
    if lines != [] {
      SumQuantitiesNonNegative(lines[..|lines| - 1]);
    }
  }

  /** Appending a fresh key keeps the keys distinct and in step with the map. */
  lemma AppendKeepsShape(keys: seq<CartKey>, items: map<CartKey, CartItem>, key: CartKey, it: CartItem)
    requires Distinct(keys) && Covers(keys, items) && (forall k :: k in items ==> k in keys)
    requires key !in items
    ensures Distinct(keys + [key]) && Covers(keys + [key], items[key := it])
    ensures forall k :: k in items[key := it] ==> k in keys + [key]
  {
    var ks := keys + [key];
    forall i, j | 0 <= i < j < |ks|
      ensures ks[i] != ks[j]
    {
      assert ks[i] == keys[i];
      if j == |keys| {
        assert keys[i] in items;
      } else {
        assert ks[j] == keys[j];
      }
    }
  }

  /** Changing one line of a cart changes the total by exactly that line's difference. */
  lemma {:induction false} TotalAfterLineChange(keys: seq<CartKey>, items: map<CartKey, CartItem>, key: CartKey, it: CartItem)
    requires Covers(keys, items) && Distinct(keys) && key in keys
    ensures Covers(keys, items[key := it])
    ensures CartTotal(keys, items[key := it]) == CartTotal(keys, items) - LineAmount(items[key]) + LineAmount(it)
    ensures ItemCount(keys, items[key := it]) == ItemCount(keys, items) - LineCount(items[key]) + LineCount(it)
  {
    var init := keys[..|keys| - 1];
    var last := keys[|keys| - 1];
    if last == key {
      assert key !in init;
      Unaffected(init, items, key, it);
    } else {
      assert key in init;
      TotalAfterLineChange(init, items, key, it);
    }
  }

  /** A cart's totals ignore lines outside its keys. */
  lemma {:induction false} Unaffected(keys: seq<CartKey>, items: map<CartKey, CartItem>, key: CartKey, it: CartItem)
    requires Covers(keys, items) && key !in keys
    ensures CartTotal(keys, items[key := it]) == CartTotal(keys, items)
    ensures ItemCount(keys, items[key := it]) == ItemCount(keys, items)
  {
    if keys != [] {
      Unaffected(keys[..|keys| - 1], items, key, it);
    }
  }

  /** Appending a new line adds its amount and its count. */
  lemma TotalAfterNewLine(keys: seq<CartKey>, items: map<CartKey, CartItem>, key: CartKey, it: CartItem)
    requires Covers(keys, items) && key !in keys
    ensures Covers(keys + [key], items[key := it])
    ensures CartTotal(keys + [key], items[key := it]) == CartTotal(keys, items) + LineAmount(it)
    ensures ItemCount(keys + [key], items[key := it]) == ItemCount(keys, items) + LineCount(it)
  {
    assert (keys + [key])[..|keys|] == keys;
    Unaffected(keys, items, key, it);
  }

  /** When every quantity is 0 the cart shows nothing and nothing can be ordered. */
  lemma {:induction false} EmptiedCart(keys: seq<CartKey>, items: map<CartKey, CartItem>)
    requires Covers(keys, items)
    requires forall k :: k in items ==> items[k].quantity == 0
    ensures CartTotal(keys, items) == 0 && ItemCount(keys, items) == 0
    ensures OrderLinesOf(keys, items) == []
  {
    if keys != [] {
      EmptiedCart(keys[..|keys| - 1], items);
    }
  }

  /** The lines after `cart[id].quantity = 0` for each key of `ks`, in order. */
  function ZeroLines(items: map<CartKey, CartItem>, ks: seq<CartKey>): map<CartKey, CartItem>
  {
    if ks == [] then items
    else
      var z := ZeroLines(items, ks[..|ks| - 1]);
      var k := ks[|ks| - 1];
      if k in z then z[k := z[k].(quantity := 0)] else z
  }

  /** Zeroing keeps every key and zeroes exactly the lines named. */
  lemma {:induction false} ZeroLinesFacts(items: map<CartKey, CartItem>, ks: seq<CartKey>)
    ensures ZeroLines(items, ks).Keys == items.Keys
    ensures forall k :: k in items ==>
      ZeroLines(items, ks)[k] == if k in ks then items[k].(quantity := 0) else items[k]
  {
    if ks != [] {
      var init := ks[..|ks| - 1];
      ZeroLinesFacts(items, init);
      assert forall k :: k in ks <==> k in init || k == ks[|ks| - 1];
    }
  }

  /** One more key of the list zeroes one more line, the one under that key. */
  lemma ZeroLinesStep(items: map<CartKey, CartItem>, ks: seq<CartKey>, i: nat)
    requires i < |ks| && ks[i] in items
    ensures ks[i] in ZeroLines(items, ks[..i])
    ensures ZeroLines(items, ks[..i + 1])
      == ZeroLines(items, ks[..i])[ks[i] := ZeroLines(items, ks[..i])[ks[i]].(quantity := 0)]
  {
    ZeroLinesFacts(items, ks[..i]);
    assert ks[..i + 1][..i] == ks[..i];
  }

  /** Zeroing every line of a cart keeps its lines and leaves nothing to pay or to order. */
  lemma ZeroAll(keys: seq<CartKey>, items: map<CartKey, CartItem>)
    requires Covers(keys, items) && (forall k :: k in items ==> k in keys)
    ensures var z := ZeroLines(items, keys);
      z.Keys == items.Keys && (forall k :: k in z ==> z[k] == items[k].(quantity := 0))
      && Covers(keys, z) && CartTotal(keys, z) == 0 && OrderLinesOf(keys, z) == []
  {
    ZeroLinesFacts(items, keys);
    EmptiedCart(keys, ZeroLines(items, keys));
  }

  /** Adding `q` pieces to a line holding none or more adds `q` unit prices to its amount. */
  lemma LineAmountAdd(it: CartItem, q: int)
    requires it.quantity >= 0 && q > 0
    ensures LineAmount(it.(quantity := it.quantity + q)) == LineAmount(it) + (it.price + it.optionPriceAdjustment) * q
  {
    var u := it.price + it.optionPriceAdjustment;
    assert u * (it.quantity + q) == u * it.quantity + u * q;
  }

  predicate WithinLimit(items: map<CartKey, CartItem>) {
    forall k :: k in items ==> items[k].quantity <= MaxItemQuantity
  }

  /** Clamp to [1, MaxItemQuantity], as the cart's -/+ buttons and quantity field do. */
  function ClampQuantity(n: int): (r: int)
    ensures 1 <= r <= MaxItemQuantity
    ensures 1 <= n <= MaxItemQuantity ==> r == n
    ensures n < 1 ==> r == 1
    ensures n > MaxItemQuantity ==> r == MaxItemQuantity
  {
    if n < 1 then 1 else if n > MaxItemQuantity then MaxItemQuantity else n
  }

  datatype AddOutcome =
    | NothingOpen
    | InvalidQuantity
    | OverLimit
    | Added(key: CartKey, quantity: int)

  datatype SubmitError = MissingName | NoItems

  /**
   * The order payload. The name and the notes are sent behind a zero-width
   * space; `lineUserId` is the session's LINE user id, or null (None).
   */
  datatype OrderPayload = OrderPayload(
    lineUserId: Option<string>,
    customerName: string,
    customerEmail: string,
    customerPhone: string,
    notes: string,
    items: seq<OrderLine>)

  const ZeroWidthSpace: string := "\U{200B}"

  /** The backend's reply to an order: status text, order id and message ("" when absent). */
  datatype OrderResponse = OrderResponse(status: string, orderId: string, message: string)

  datatype OrderReply =
    | Ordered(lastOrderId: Option<string>)
    | Failed(message: string)

  const DefaultFailure: string := "\U{6CE8}\U{6587}\U{306F}\U{5931}\U{6557}\U{3057}\U{307E}\U{3057}\U{305F}\U{3002}"

  /** An add's outcome together with the cart's keys and lines after it. */
  datatype AddResult = AddResult(outcome: AddOutcome, keys: seq<CartKey>, items: map<CartKey, CartItem>)

  /**
   * The modal's "add to cart": nothing without an open product or with a
   * quantity below 1; a key the cart lacks gets a new line; a held key
   * grows by the quantity unless that passes the limit, which is refused.
   */
  function AddToCart(keys: seq<CartKey>, items: map<CartKey, CartItem>, current: Option<Product>,
    quantityInput: Option<int>, choices: seq<ModalChoice>): AddResult
  {
    if current.None? then AddResult(NothingOpen, keys, items)
    else
      var q := OrDefault(quantityInput, 0);
      var key := CartKey(current.value.id, SelectedOptions(choices));
      var existing := if key in items then items[key].quantity else 0;
      if q <= 0 then AddResult(InvalidQuantity, keys, items)
      else if existing + q > MaxItemQuantity then AddResult(OverLimit, keys, items)
      else if key in items then AddResult(Added(key, q), keys, items[key := items[key].(quantity := existing + q)])
      else AddResult(Added(key, q), keys + [key], items[key := NewItem(current.value, choices).(quantity := q)])
  }

  /**
   * An add succeeds exactly with an open product, a positive quantity and
   * room under the limit; it then raises that one line by the quantity,
   * appending its key only when new, and a refused add changes nothing.
   */
  lemma AddEffect(keys: seq<CartKey>, items: map<CartKey, CartItem>, current: Option<Product>,
    quantityInput: Option<int>, choices: seq<ModalChoice>)
    ensures var r := AddToCart(keys, items, current, quantityInput, choices);
      var q := OrDefault(quantityInput, 0);
      current.Some? ==>
        var key := CartKey(current.value.id, SelectedOptions(choices));
        var existing := if key in items then items[key].quantity else 0;
        (r.outcome.Added? <==> q > 0 && existing + q <= MaxItemQuantity)
        && (r.outcome.Added? ==>
              r.outcome == Added(key, q)
              && r.items.Keys == items.Keys + {key} && r.items[key].quantity == existing + q
              && (forall k :: k in items && k != key ==> r.items[k] == items[k])
              && r.keys == keys + (if key in items then [] else [key]))
    ensures var r := AddToCart(keys, items, current, quantityInput, choices);
      !r.outcome.Added? ==> r.keys == keys && r.items == items
  {
  }

  /** No add takes a line past the limit. */
  lemma AddKeepsLimit(keys: seq<CartKey>, items: map<CartKey, CartItem>, current: Option<Product>,
    quantityInput: Option<int>, choices: seq<ModalChoice>)
    requires WithinLimit(items)
    ensures WithinLimit(AddToCart(keys, items, current, quantityInput, choices).items)
  {
  }

  /** An add changes the cart's total by the difference of the one line it touches. */
  lemma AddTotal(keys: seq<CartKey>, items: map<CartKey, CartItem>, current: Option<Product>,
    quantityInput: Option<int>, choices: seq<ModalChoice>)
    requires Distinct(keys) && Covers(keys, items) && (forall k :: k in items ==> k in keys)
    ensures var r := AddToCart(keys, items, current, quantityInput, choices);
      r.outcome.Added? ==>
        r.outcome.key in r.items && CartTotal(r.keys, r.items) == CartTotal(keys, items)
        - (if r.outcome.key in items then LineAmount(items[r.outcome.key]) else 0) + LineAmount(r.items[r.outcome.key])
  {
    var r := AddToCart(keys, items, current, quantityInput, choices);
    if r.outcome.Added? {
      var key := r.outcome.key;
      if key in items {
        TotalAfterLineChange(keys, items, key, r.items[key]);
      } else {
        TotalAfterNewLine(keys, items, key, r.items[key]);
      }
    }
  }

  /** The cart: one line per product and option choice, kept in insertion order. */
  class Cart {
    var keys: seq<CartKey>
    var items: map<CartKey, CartItem>

    ghost predicate Valid()
      reads this
    {
      Distinct(keys) && Covers(keys, items) && (forall k :: k in items ==> k in keys)
    }

    constructor ()
      ensures Valid() && keys == [] && items == map[]
    {
      keys := [];
      items := map[];
    }

    /** Appends a line under a key the cart does not hold yet. */
    method InsertLine(key: CartKey, it: CartItem)
      requires Valid() && key !in items
      modifies this
      ensures Valid()
      ensures keys == old(keys) + [key] && items == old(items)[key := it]
      ensures CartTotal(keys, items) == old(CartTotal(keys, items)) + LineAmount(it)
      ensures ItemCount(keys, items) == old(ItemCount(keys, items)) + LineCount(it)
    {
      TotalAfterNewLine(keys, items, key, it);
      AppendKeepsShape(keys, items, key, it);
      keys := keys + [key];
      items := items[key := it];
    }

    /** Replaces the line under a key the cart holds. */
    method ReplaceLine(key: CartKey, it: CartItem)
      requires Valid() && key in items
      modifies this
      ensures Valid()
      ensures keys == old(keys) && items == old(items)[key := it]
      ensures CartTotal(keys, items) == old(CartTotal(keys, items)) - LineAmount(old(items)[key]) + LineAmount(it)
      ensures ItemCount(keys, items) == old(ItemCount(keys, items)) - LineCount(old(items)[key]) + LineCount(it)
    {
      TotalAfterLineChange(keys, items, key, it);
      items := items[key := it];
    }

    /** The "add to cart" button of the product modal: see `AddToCart`. */
    method AddFromModal(current: Option<Product>, quantityInput: Option<int>, choices: seq<ModalChoice>)
      returns (outcome: AddOutcome)
      requires Valid()
      modifies this
      ensures Valid()
      ensures AddResult(outcome, keys, items) == AddToCart(old(keys), old(items), current, quantityInput, choices)
    {
      if current.None? {
        return NothingOpen;
      }
      var p := current.value;
      var q := OrDefault(quantityInput, 0);
      if q <= 0 {
        return InvalidQuantity;
      }
      var key := CartKey(p.id, SelectedOptions(choices));
      var existing := if key in items then items[key].quantity else 0;
      if existing + q > MaxItemQuantity {
        return OverLimit;
      }
      if key !in items {
        InsertLine(key, NewItem(p, choices).(quantity := q));
      } else {
        ReplaceLine(key, items[key].(quantity := existing + q));
      }
      outcome := Added(key, q);
    }

    /** Sets a line's quantity to the parsed input (0 when not a number), unclamped. */
    method UpdateCart(key: CartKey, quantityInput: Option<int>)
      requires Valid()
      modifies this
      ensures Valid() && keys == old(keys)
      ensures key in old(items) ==> items == old(items)[key := old(items)[key].(quantity := OrDefault(quantityInput, 0))]
      ensures key !in old(items) ==> items == old(items)
      ensures key in old(items) ==>
        CartTotal(keys, items) == old(CartTotal(keys, items)) - LineAmount(old(items)[key]) + LineAmount(items[key])
    {
      if key in items {
        ReplaceLine(key, items[key].(quantity := OrDefault(quantityInput, 0)));
      }
    }

    /**
     * The cart's -/+ buttons (`newValue` None) and its quantity field
     * (`newValue` Some of the parsed text): the result is clamped to
     * [1, MaxItemQuantity].
     */
    method UpdateItemQuantity(key: CartKey, delta: int, newValue: Option<Option<int>>)
      requires Valid()
      modifies this
      ensures Valid() && keys == old(keys)
      ensures key !in old(items) ==> items == old(items)
      ensures key in old(items) ==>
        var n := if newValue.Some? then OrDefault(newValue.value, 0) else old(items)[key].quantity + delta;
        items == old(items)[key := old(items)[key].(quantity := ClampQuantity(n))]
      ensures old(WithinLimit(items)) ==> WithinLimit(items)
      ensures key in old(items) ==>
        CartTotal(keys, items) == old(CartTotal(keys, items)) - LineAmount(old(items)[key]) + LineAmount(items[key])
    {
      if key !in items {
        return;
      }
      var n := if newValue.Some? then OrDefault(newValue.value, 0) else items[key].quantity + delta;
      ReplaceLine(key, items[key].(quantity := ClampQuantity(n)));
    }

    /** Removing a line sets its quantity to 0; the line stays in the cart. */
    method RemoveItem(key: CartKey)
      requires Valid()
      modifies this
      ensures Valid() && keys == old(keys)
      ensures key !in old(items) ==> items == old(items)
      ensures key in old(items) ==> items == old(items)[key := old(items)[key].(quantity := 0)]
      ensures old(WithinLimit(items)) ==> WithinLimit(items)
      ensures key in old(items) ==>
        CartTotal(keys, items) == old(CartTotal(keys, items)) - LineAmount(old(items)[key])
        && ItemCount(keys, items) == old(ItemCount(keys, items)) - LineCount(old(items)[key])
    {
      if key in items {
        ReplaceLine(key, items[key].(quantity := 0));
      }
    }

    /** The totals the cart shows, accumulated over the lines in order. */
    method RenderCart() returns (total: int, count: int, showsEmpty: bool)
      requires Valid()
      ensures total == CartTotal(keys, items)
      ensures count == ItemCount(keys, items)
      ensures showsEmpty <==> OrderLinesOf(keys, items) == []
    {
      total, count := 0, 0;
      var i := 0;
      while i < |keys|
        invariant 0 <= i <= |keys|
        invariant total == CartTotal(keys[..i], items)
        invariant count == ItemCount(keys[..i], items)
      {
        assert keys[..i + 1][..i] == keys[..i];
        var it := items[keys[i]];
        if it.quantity > 0 {
          total := total + (it.price + it.optionPriceAdjustment) * it.quantity;
          count := count + it.quantity;
        }
        i := i + 1;
      }
      assert keys[..i] == keys;
      CountMatchesOrderLines(keys, items);
      showsEmpty := count == 0;
    }

    /**
     * The order button: a name that trims to nothing is refused first, then a
     * cart without any positive quantity. The e-mail and phone inputs are
     * sent trimmed, the notes as typed.
     */
    function SubmitOrder(customerName: string, customerEmail: string, customerPhone: string, notes: string,
      lineUserId: Option<string>): (r: Result<OrderPayload, SubmitError>)
      reads this
      requires Valid()
      ensures r.Err? && r.error == MissingName <==> Trim(customerName) == []
      ensures r.Err? && r.error == NoItems <==> Trim(customerName) != [] && ItemCount(keys, items) == 0
      ensures r.Ok? ==> (r.value.items == OrderLinesOf(keys, items)
        && r.value.lineUserId == lineUserId
        && r.value.customerName == ZeroWidthSpace + Trim(customerName)
        && r.value.customerEmail == Trim(customerEmail)
        && r.value.customerPhone == Trim(customerPhone)
        && r.value.notes == ZeroWidthSpace + notes)
    {
      CountMatchesOrderLines(keys, items);
      var name := Trim(customerName);
      if name == [] then Err(MissingName)
      else
        var lines := OrderLinesOf(keys, items);
        if lines == [] then Err(NoItems)
        else Ok(OrderPayload(lineUserId, ZeroWidthSpace + name, Trim(customerEmail), Trim(customerPhone),
          ZeroWidthSpace + notes, lines))
    }

    /**
     * The reply to a sent order. On "success" every line's quantity goes to
     * 0 and a non-empty order id is kept as the last order id; anything else
     * is a failure with the reply's message or a default one.
     */
    method HandleOrderSuccess(response: OrderResponse) returns (reply: OrderReply)
      requires Valid()
      modifies this
      ensures Valid() && keys == old(keys)
      ensures response.status != "success" ==> (items == old(items)
        && reply == Failed(if response.message != "" then response.message else DefaultFailure))
      ensures response.status == "success" ==>
        reply == Ordered(if response.orderId != "" then Some(response.orderId) else None)
        && items.Keys == old(items).Keys
        && (forall k :: k in items ==> items[k] == old(items)[k].(quantity := 0))
        && CartTotal(keys, items) == 0 && OrderLinesOf(keys, items) == []
    {
      if response.status != "success" {
        return Failed(if response.message != "" then response.message else DefaultFailure);
      }
      reply := Ordered(if response.orderId != "" then Some(response.orderId) else None);
      ghost var before := items;
      assert Covers(keys, before);
      var i := 0;
      while i < |keys|
        invariant 0 <= i <= |keys| && keys == old(keys)
        invariant items == ZeroLines(before, keys[..i])
      {
        ZeroLinesStep(before, keys, i);
        items := items[keys[i] := items[keys[i]].(quantity := 0)];
        i := i + 1;
      }
      assert keys[..i] == keys;
      ZeroAll(keys, before);
    }
  }

  /**
   * The order-history total of one order. The history view adds the stored
   * adjustment without a default, so one missing adjustment makes the total
   * NaN (None).
   */
  method OrderHistoryTotal(orderItems: seq<OrderItem>) returns (total: Option<int>)
    ensures AllAdjustmentsPresent(orderItems) ==> total == Some(SumItemTotals(orderItems))
    ensures !AllAdjustmentsPresent(orderItems) ==> total == None
  {
    total := Some(0);
    var i := 0;
    while i < |orderItems|
      invariant 0 <= i <= |orderItems|
      invariant AllAdjustmentsPresent(orderItems[..i]) ==> total == Some(SumItemTotals(orderItems[..i]))
      invariant !AllAdjustmentsPresent(orderItems[..i]) ==> total == None
    {
      var it := orderItems[i];
      assert orderItems[..i + 1] == orderItems[..i] + [it];
      SumItemTotalsSnoc(orderItems[..i], it);
      if total.Some? && it.optionPriceAdjustment.Some? {
        total := Some(total.value + (it.price + it.optionPriceAdjustment.value) * it.quantity);
      } else {
        total := None;
      }
      i := i + 1;
    }
    assert orderItems[..i] == orderItems;
  }
}
