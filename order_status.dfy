/**
 * The customer's order-status dialog on the ordering page: the order id
 * typed in is trimmed and looked up, and a found order is shown with its
 * lines, their option text and the order total.
 */
module OrderStatus {
  import opened Wrappers
  import opened Text
  import opened OrderLines
  import ProductOrder

  /** An order as the status lookup returns it. */
  datatype Order = Order(
    orderId: string,
    customerName: string,
    status: string,
    notes: string,
    items: seq<OrderItem>)

  /** One shown line: name, quantity, line total, and the option text when there are options. */
  datatype LineView = LineView(name: string, quantity: int, itemTotal: int, options: Option<string>)

  /** What the details area shows for an order. */
  datatype OrderView = OrderView(
    orderId: string,
    customerName: string,
    status: string,
    statusClass: string,
    totalAmount: int,
    notes: string,
    lines: seq<LineView>,
    noItemsPlaceholder: bool)

  /** The shown form of one line. */
  function LineOf(it: OrderItem): LineView {
    LineView(it.name, it.quantity, ItemTotal(it),
      if it.selectedOptions != [] then Some(OptionsText(it.selectedOptions)) else None)
  }

  /** The shown lines of a list of items, one per item, in order. */
  function LinesOf(items: seq<OrderItem>): (r: seq<LineView>)
    ensures |r| == |items|
    ensures forall k :: 0 <= k < |items| ==> r[k] == LineOf(items[k])
  {
    if items == [] then [] else LinesOf(items[..|items| - 1]) + [LineOf(items[|items| - 1])]
  }

  /** One more item of a list shows one more line, that item's. */
  lemma LinesOfPrefix(items: seq<OrderItem>, i: nat)
    requires i < |items|
    ensures LinesOf(items[..i + 1]) == LinesOf(items[..i]) + [LineOf(items[i])]
  {
    assert items[..i + 1][..i] == items[..i];
  }

  /** `status.toLowerCase().replace(/ /g, '-')`: the CSS class suffix of the status. */
  function StatusClass(status: string): (r: string)
    ensures |r| == |status|
    ensures ' ' !in r
    ensures forall k :: 0 <= k < |r| ==> r[k] == (if status[k] == ' ' then '-' else LowerChar(status[k]))
  {
    var lower := ToLower(status);
    seq(|lower|, k requires 0 <= k < |lower| => if lower[k] == ' ' then '-' else lower[k])
  }

  /** The option text has one "group: value" entry per option, separated by ", ". */
  lemma {:induction false} OptionsTextShape(opts: seq<SelectedOption>)
    ensures opts == [] ==> OptionsText(opts) == ""
    ensures |opts| == 1 ==> OptionsText(opts) == opts[0].groupName + ": " + opts[0].optionValue
    ensures |opts| >= 2 ==>
      OptionsText(opts) == OptionLabel(opts[0]) + ", " + OptionsText(opts[1..])
  {
    var labels := OptionLabels(opts);
    if |opts| >= 2 {
      assert labels == [labels[0]] + labels[1..];
      assert labels[1..] == OptionLabels(opts[1..]);
    }
  }

  /**
   * `view` shows `order`: the total is the sum of the line totals, every
   * item is shown in order, the placeholder shows exactly for no items, and
   * the header fields are the order's own.
   */
  predicate ShowsOrder(order: Order, view: OrderView) {
    && view.totalAmount == SumItemTotals(order.items)
    && |view.lines| == |order.items|
    && (forall k :: 0 <= k < |order.items| ==> view.lines[k] == LineOf(order.items[k]))
    && (view.noItemsPlaceholder <==> order.items == [])
    && view.orderId == order.orderId && view.customerName == order.customerName
    && view.status == order.status && view.statusClass == StatusClass(order.status)
    && view.notes == OrDash(order.notes)
  }

  /**
   * `displayOrderStatus`: walks the items, adding each line's total,
   * `(price + (optionPriceAdjustment || 0)) * quantity`, and showing the
   * line; an order without items shows the "no product information" text.
   */
  method DisplayOrderStatus(order: Order) returns (view: OrderView)
    ensures ShowsOrder(order, view)
  {
    var total := 0;
    var lines: seq<LineView> := [];
    var i := 0;
    while i < |order.items|
      invariant 0 <= i <= |order.items|
      invariant total == SumItemTotals(order.items[..i])
      invariant lines == LinesOf(order.items[..i])
    {
      var item := order.items[i];
      var itemTotal := (item.price + OrDefault(item.optionPriceAdjustment, 0)) * item.quantity;
      assert itemTotal == ItemTotal(item);
      SumItemTotalsPrefix(order.items, i);
      LinesOfPrefix(order.items, i);
      total := total + itemTotal;
      var options := if item.selectedOptions != [] then Some(OptionsText(item.selectedOptions)) else None;
      lines := lines + [LineView(item.name, item.quantity, itemTotal, options)];
      i := i + 1;
    }
    assert order.items[..i] == order.items;
    view := OrderView(order.orderId, order.customerName, order.status, StatusClass(order.status),
      total, OrDash(order.notes), lines, order.items == []);
  }

  /** No items: total 0. */
  lemma NoItemsTotalZero(order: Order)
    requires order.items == []
    ensures SumItemTotals(order.items) == 0
  {
  }

  /** The total of two lists of lines is the sum of their totals. */
  lemma {:induction false} SumItemTotalsAppend(a: seq<OrderItem>, b: seq<OrderItem>)
    ensures SumItemTotals(a + b) == SumItemTotals(a) + SumItemTotals(b)
  {
    if a == [] {
      assert a + b == b;
    } else {
      assert (a + b)[0] == a[0] && (a + b)[1..] == a[1..] + b;
      SumItemTotalsAppend(a[1..], b);
    }
  }

  /** A missing adjustment counts as 0: the line total is the one with an explicit 0. */
  lemma MissingAdjustmentIsZero(it: OrderItem)
    requires it.optionPriceAdjustment.None?
    ensures ItemTotal(it) == ItemTotal(it.(optionPriceAdjustment := Some(0)))
    ensures ItemTotal(it) == it.price * it.quantity
  {
  }

  const EnterOrderId: string :=
    "\U{6CE8}\U{6587}ID\U{3092}\U{5165}\U{529B}\U{3057}\U{3066}\U{304F}\U{3060}\U{3055}\U{3044}\U{3002}"

  /** What the result line shows while a lookup is under way. */
  const FetchingOrder: string :=
    "\U{6CE8}\U{6587}\U{60C5}\U{5831}\U{3092}\U{53D6}\U{5F97}\U{4E2D}..."

  /** What the result line shows when no order has the id. */
  function NotFoundText(orderId: string): string {
    "\U{6CE8}\U{6587}ID: " + orderId
    + " \U{306E}\U{60C5}\U{5831}\U{304C}\U{898B}\U{3064}\U{304B}\U{308A}\U{307E}\U{305B}\U{3093}\U{3067}\U{3057}\U{305F}\U{3002}"
  }

  /** What the result line shows when the lookup fails with a message. */
  function FailureText(message: string): string {
    "\U{30A8}\U{30E9}\U{30FC}: \U{6CE8}\U{6587}\U{30B9}\U{30C6}\U{30FC}\U{30BF}\U{30B9}\U{306E}\U{53D6}\U{5F97}\U{306B}\U{5931}\U{6557}\U{3057}\U{307E}\U{3057}\U{305F}\U{3002}"
    + message
  }

  /**
   * How a status lookup ends: the order was found, the reply had no order,
   * or the request failed (a bad HTTP status, an `error` in the reply, or
   * the network) with a message.
   */
  datatype LookupReply = Found(order: Order) | NotFound | LookupFailed(message: string)

  /** The dialog's state and the order id kept for the session. */
  class OrderStatusDialog {
    var open: bool
    var idInput: string
    var resultText: string
    var details: Option<OrderView>
    /** `sessionStorage.lastOrderId`; only a non-empty id is ever stored. */
    var lastOrderId: Option<string>

    predicate Valid()
      reads this
    {
      lastOrderId.Some? ==> lastOrderId.value != ""
    }

    /**
     * Page load: a stored empty id is falsy and counts as none; a stored
     * id is filled in and its lookup starts.
     */
    constructor(stored: Option<string>)
      ensures Valid() && !open
      ensures stored.Some? && stored.value != "" ==>
        lastOrderId == stored && idInput == stored.value
        && resultText == FetchingOrder && details == None
      ensures stored.None? || stored.value == "" ==>
        lastOrderId == None && idInput == "" && resultText == "" && details == None
    {
      open := false;
      details := None;
      if stored.Some? && stored.value != "" {
        lastOrderId := stored;
        idInput := stored.value;
        resultText := FetchingOrder;
      } else {
        lastOrderId := None;
        idInput := "";
        resultText := "";
      }
    }

    /**
     * The "check" button: an id that trims to nothing is refused with a
     * message and no lookup; otherwise the trimmed id is stored and its
     * lookup starts, which shows the loading text and clears the details.
     */
    method CheckClicked() returns (lookup: Option<string>)
      requires Valid()
      modifies this`resultText, this`details, this`lastOrderId
      ensures Valid() && details == None
      ensures Trim(old(idInput)) == "" ==>
        lookup == None && resultText == EnterOrderId && lastOrderId == old(lastOrderId)
      ensures Trim(old(idInput)) != "" ==>
        lookup == Some(Trim(old(idInput))) && lastOrderId == lookup
        && resultText == FetchingOrder
    {
      var orderId := Trim(idInput);
      details := None;
      if orderId != "" {
        lastOrderId := Some(orderId);
        resultText := FetchingOrder;
        return Some(orderId);
      }
      resultText := EnterOrderId;
      return None;
    }

    /**
     * Opening the dialog fills in the stored id, if there is one, and starts
     * its lookup again.
     */
    method OpenOrderStatusModal() returns (lookup: Option<string>)
      requires Valid()
      modifies this`open, this`idInput, this`resultText, this`details
      ensures Valid() && open
      ensures lookup == lastOrderId
      ensures lastOrderId.Some? ==>
        idInput == lastOrderId.value && resultText == FetchingOrder && details == None
      ensures lastOrderId.None? ==>
        idInput == old(idInput) && resultText == old(resultText) && details == old(details)
    {
      open := true;
      if lastOrderId.Some? {
        idInput := lastOrderId.value;
        resultText := FetchingOrder;
        details := None;
      }
      lookup := lastOrderId;
    }

    /**
     * The end of a lookup of `orderId`: a found order is shown in the
     * details and the result line is emptied; otherwise the result line
     * says what went wrong and the details stay as they are.
     */
    method ShowLookupResult(orderId: string, reply: LookupReply)
      modifies this`resultText, this`details
      ensures reply.Found? ==>
        resultText == "" && details.Some? && ShowsOrder(reply.order, details.value)
      ensures reply.NotFound? ==> resultText == NotFoundText(orderId) && details == old(details)
      ensures reply.LookupFailed? ==>
        resultText == FailureText(reply.message) && details == old(details)
    {
      match reply
      case Found(order) =>
        var view := DisplayOrderStatus(order);
        details := Some(view);
        resultText := "";
      case NotFound =>
        resultText := NotFoundText(orderId);
      case LookupFailed(message) =>
        resultText := FailureText(message);
    }

    /**
     * A successful order on the same page stores its id, when the reply
     * carries one, as the id the dialog looks up next.
     */
    method OrderPlaced(reply: ProductOrder.OrderReply)
      requires Valid()
      modifies this`lastOrderId
      ensures Valid()
      ensures reply.Ordered? && reply.lastOrderId.Some? && reply.lastOrderId.value != "" ==>
        lastOrderId == reply.lastOrderId
      ensures !(reply.Ordered? && reply.lastOrderId.Some? && reply.lastOrderId.value != "") ==>
        lastOrderId == old(lastOrderId)
    {
      if reply.Ordered? && reply.lastOrderId.Some? && reply.lastOrderId.value != "" {
        lastOrderId := reply.lastOrderId;
      }
    }

    /** Closing the dialog clears the result text, the details and the id input. */
    method CloseOrderStatusModal()
      modifies this`open, this`resultText, this`details, this`idInput
      ensures !open && resultText == "" && details == None && idInput == ""
    {
      open := false;
      resultText := "";
      details := None;
      idInput := "";
    }
  }

  /**
   * A successful order followed by opening the status dialog looks up the
   * new order's id: the ordering page writes it where the dialog reads it.
   */
  method OrderThenOpen(cart: ProductOrder.Cart, dialog: OrderStatusDialog, response: ProductOrder.OrderResponse)
    returns (lookup: Option<string>)
    requires cart.Valid() && dialog.Valid()
    requires response.status == "success" && response.orderId != ""
    modifies cart, dialog
    ensures lookup == Some(response.orderId) && dialog.idInput == response.orderId
    ensures dialog.open && dialog.resultText == FetchingOrder && dialog.details == None
  {
    var reply := cart.HandleOrderSuccess(response);
    dialog.OrderPlaced(reply);
    lookup := dialog.OpenOrderStatusModal();
  }
}
