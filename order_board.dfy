/**
 * The store's order board. The server returns one row per ordered product;
 * the board groups the rows by order id, sums the row amounts of each
 * order, lists its items, and offers a status select with the order's
 * current status marked.
 */
module OrderBoard {
  import opened Text

  /** One row of the orders sheet. */
  datatype OrderRow = OrderRow(
    orderId: string,
    orderDateTime: string,
    customerName: string,
    productName: string,
    quantity: int,
    amount: int,             // the row's total amount
    selectedOptions: string,
    notes: string,
    status: string)

  /** One product line of a grouped order. */
  datatype LineItem = LineItem(productName: string, quantity: int, itemAmount: int, selectedOptions: string)

  /**
   * One order on the board. `selectedOptions` is empty until the first row
   * of the order has been seen (the property is absent, hence falsy).
   */
  datatype OrderGroup = OrderGroup(
    orderId: string,
    orderDateTime: string,
    customerName: string,
    totalAmount: int,
    notes: string,
    status: string,
    items: seq<LineItem>,
    selectedOptions: string)

  function ItemOf(row: OrderRow): LineItem {
    LineItem(row.productName, row.quantity, row.amount, row.selectedOptions)
  }

  // ---------------------------------------------------------------
  // What the grouping computes, row by row
  // ---------------------------------------------------------------

  /** The order id of every row. */
  function Ids(rows: seq<OrderRow>): (r: seq<string>)
    ensures |r| == |rows|
  {
    seq(|rows|, k requires 0 <= k < |rows| => rows[k].orderId)
  }

  /** The items of order `id` among the first `n` rows, in row order. */
  function ItemsFor(rows: seq<OrderRow>, n: nat, id: string): seq<LineItem>
    requires n <= |rows|
  {
    if n == 0 then []
    else ItemsFor(rows, n - 1, id) + (if rows[n - 1].orderId == id then [ItemOf(rows[n - 1])] else [])
  }

  /** The sum of the row amounts of order `id` among the first `n` rows. */
  function AmountFor(rows: seq<OrderRow>, n: nat, id: string): int
    requires n <= |rows|
  {
    if n == 0 then 0
    else AmountFor(rows, n - 1, id) + (if rows[n - 1].orderId == id then rows[n - 1].amount else 0)
  }

  /**
   * The group of order `id` after the first `n` rows: header fields and
   * options from its first row, the items and the amount of all its rows.
   */
  function GroupOf(rows: seq<OrderRow>, n: nat, id: string): OrderGroup
    requires n <= |rows| && id in Ids(rows)[..n]
  {
    var first := rows[IndexOf(Ids(rows), id)];
    OrderGroup(id, first.orderDateTime, first.customerName, AmountFor(rows, n, id),
      first.notes, first.status, ItemsFor(rows, n, id), OrDash(first.selectedOptions))
  }

  /** The order ids of the first `n` rows, each once, in order of first appearance. */
  function FirstAppearances(rows: seq<OrderRow>, n: nat): (ids: seq<string>)
    requires n <= |rows|
    ensures forall id :: id in ids <==> id in Ids(rows)[..n]
  {
    if n == 0 then []
    else
      var before := FirstAppearances(rows, n - 1);
      assert Ids(rows)[..n] == Ids(rows)[..n - 1] + [rows[n - 1].orderId];
      if rows[n - 1].orderId in before then before else before + [rows[n - 1].orderId]
  }

  lemma {:induction false} FirstAppearancesDistinct(rows: seq<OrderRow>, n: nat)
    requires n <= |rows|
    ensures Distinct(FirstAppearances(rows, n))
  {
    if n > 0 {
      FirstAppearancesDistinct(rows, n - 1);
    }
  }

  // ---------------------------------------------------------------
  // The reduce
  // ---------------------------------------------------------------

  /**
   * The `reduce` over the rows: the accumulator maps each order id to its
   * group, created at the id's first row and extended at every row.
   */
  method GroupOrders(rows: seq<OrderRow>) returns (groups: map<string, OrderGroup>)
    ensures forall id :: id in groups <==> id in Ids(rows)
    ensures forall id :: id in groups ==> groups[id] == GroupOf(rows, |rows|, id)
  {
    groups := map[];
    var i := 0;
    while i < |rows|
      invariant 0 <= i <= |rows|
      invariant GroupsMatch(rows, i, groups)
    {
      ghost var before := groups;
      groups := Reduce(groups, rows[i]);
      GroupKeysStep(rows, i, before.Keys, groups.Keys);
      GroupValuesStep(rows, i, before, groups);
      i := i + 1;
    }
    assert Ids(rows)[..i] == Ids(rows);
  }

  /**
   * The callback of the `reduce`: creates the group at the first row of its
   * order, then appends the row's item, adds its amount and, while the
   * group has no options text yet, takes the row's options or '-'.
   */
  method Reduce(acc: map<string, OrderGroup>, row: OrderRow) returns (r: map<string, OrderGroup>)
    ensures ReducedBy(acc, row, r)
  {
    var id := row.orderId;
    r := acc;
    if id !in r {
      r := r[id := OrderGroup(id, row.orderDateTime, row.customerName, 0, row.notes, row.status, [], "")];
    }
    var g := r[id];
    g := g.(items := g.items + [ItemOf(row)], totalAmount := g.totalAmount + row.amount);
    if g.selectedOptions == "" {
      g := g.(selectedOptions := OrDash(row.selectedOptions));
    }
    r := r[id := g];
  }

  /**
   * `r` is `acc` after one row: the row's order gets its group (a new one
   * from the row, or the old one with the row's item and amount added and
   * its options text filled if still empty); every other group is unchanged.
   */
  ghost predicate ReducedBy(acc: map<string, OrderGroup>, row: OrderRow, r: map<string, OrderGroup>) {
    && r.Keys == acc.Keys + {row.orderId}
    && (forall x :: x in acc && x != row.orderId ==> r[x] == acc[x])
    && (row.orderId in acc ==>
      var g := acc[row.orderId];
      r[row.orderId] == g.(items := g.items + [ItemOf(row)], totalAmount := g.totalAmount + row.amount,
        selectedOptions := if g.selectedOptions == "" then OrDash(row.selectedOptions) else g.selectedOptions))
    && (row.orderId !in acc ==>
      r[row.orderId] == OrderGroup(row.orderId, row.orderDateTime, row.customerName, row.amount,
        row.notes, row.status, [ItemOf(row)], OrDash(row.selectedOptions)))
  }

  /** An id that has not appeared has no items and no amount yet. */
  lemma {:induction false} NoRowsYet(rows: seq<OrderRow>, n: nat, id: string)
    requires n <= |rows| && id !in Ids(rows)[..n]
    ensures ItemsFor(rows, n, id) == [] && AmountFor(rows, n, id) == 0
  {
    if n > 0 {
      assert Ids(rows)[..n] == Ids(rows)[..n - 1] + [rows[n - 1].orderId];
      NoRowsYet(rows, n - 1, id);
    }
  }

  /** `groups` holds exactly the groups of the ids among the first `n` rows. */
  ghost predicate GroupsMatch(rows: seq<OrderRow>, n: nat, groups: map<string, OrderGroup>)
    requires n <= |rows|
  {
    && (forall id :: id in groups <==> id in Ids(rows)[..n])
    && (forall id :: id in groups ==> id in Ids(rows)[..n] && groups[id] == GroupOf(rows, n, id))
  }

  /** One more row extends the group of an order that has already appeared. */
  lemma GroupOfStep(rows: seq<OrderRow>, i: nat, x: string)
    requires i < |rows| && x in Ids(rows)[..i]
    ensures x in Ids(rows)[..i + 1]
    ensures var g := GroupOf(rows, i, x);
      GroupOf(rows, i + 1, x) == g.(
        items := g.items + (if rows[i].orderId == x then [ItemOf(rows[i])] else []),
        totalAmount := g.totalAmount + (if rows[i].orderId == x then rows[i].amount else 0))
  {
    assert Ids(rows)[..i + 1] == Ids(rows)[..i] + [rows[i].orderId];
  }

  /** The group of an order at its first row. */
  lemma GroupOfFirst(rows: seq<OrderRow>, i: nat)
    requires i < |rows| && rows[i].orderId !in Ids(rows)[..i]
    ensures rows[i].orderId in Ids(rows)[..i + 1]
    ensures GroupOf(rows, i + 1, rows[i].orderId) == OrderGroup(rows[i].orderId, rows[i].orderDateTime,
      rows[i].customerName, rows[i].amount, rows[i].notes, rows[i].status, [ItemOf(rows[i])],
      OrDash(rows[i].selectedOptions))
  {
    var id := rows[i].orderId;
    assert Ids(rows)[..i + 1] == Ids(rows)[..i] + [id];
    NoRowsYet(rows, i, id);
    assert Ids(rows)[i] == id;
    assert IndexOf(Ids(rows), id) == i;
  }

  /** The orders on the board after one more row: the earlier ones and the row's. */
  lemma GroupKeysStep(rows: seq<OrderRow>, i: nat, before: set<string>, after: set<string>)
    requires i < |rows|
    requires (forall x :: x in before <==> x in Ids(rows)[..i]) && after == before + {rows[i].orderId}
    ensures forall x :: x in after <==> x in Ids(rows)[..i + 1]
  {
    assert Ids(rows)[..i + 1] == Ids(rows)[..i] + [rows[i].orderId];
  }

  lemma GroupValuesStep(rows: seq<OrderRow>, i: nat, before: map<string, OrderGroup>, after: map<string, OrderGroup>)
    requires i < |rows|
    requires GroupsMatch(rows, i, before) && ReducedBy(before, rows[i], after)
    ensures forall x :: x in after ==> x in Ids(rows)[..i + 1] && after[x] == GroupOf(rows, i + 1, x)
  {
    forall x | x in after
      ensures x in Ids(rows)[..i + 1] && after[x] == GroupOf(rows, i + 1, x)
    {
      if x != rows[i].orderId {
        assert x in before && after[x] == before[x];
        OtherGroupUnchanged(rows, i, x);
      } else {
        GroupValueOfRow(rows, i, before, after);
      }
    }
  }

  /** After one row, the row's own order has the group its specification gives. */
  lemma GroupValueOfRow(rows: seq<OrderRow>, i: nat, before: map<string, OrderGroup>, after: map<string, OrderGroup>)
    requires i < |rows|
    requires GroupsMatch(rows, i, before) && ReducedBy(before, rows[i], after)
    ensures rows[i].orderId in Ids(rows)[..i + 1] && after[rows[i].orderId] == GroupOf(rows, i + 1, rows[i].orderId)
  {
    if rows[i].orderId in before {
      SameGroupExtended(rows, i, before[rows[i].orderId]);
    } else {
      GroupOfFirst(rows, i);
    }
  }

  /** A row of another order leaves a group as it was. */
  lemma OtherGroupUnchanged(rows: seq<OrderRow>, i: nat, x: string)
    requires i < |rows| && x in Ids(rows)[..i] && x != rows[i].orderId
    ensures x in Ids(rows)[..i + 1] && GroupOf(rows, i + 1, x) == GroupOf(rows, i, x)
  {
    GroupOfStep(rows, i, x);
  }

  /** A further row of an order extends its group; its options text is already set. */
  lemma SameGroupExtended(rows: seq<OrderRow>, i: nat, g: OrderGroup)
    requires i < |rows| && rows[i].orderId in Ids(rows)[..i] && g == GroupOf(rows, i, rows[i].orderId)
    ensures rows[i].orderId in Ids(rows)[..i + 1]
    ensures GroupOf(rows, i + 1, rows[i].orderId) == g.(items := g.items + [ItemOf(rows[i])],
      totalAmount := g.totalAmount + rows[i].amount,
      selectedOptions := if g.selectedOptions == "" then OrDash(rows[i].selectedOptions) else g.selectedOptions)
  {
    GroupOfStep(rows, i, rows[i].orderId);
    assert g.selectedOptions != "";
  }

  /**
   * `renderOrders`: no rows shows the "no orders" placeholder and no
   * groups; otherwise one group per distinct order id.
   */
  method RenderOrders(rows: seq<OrderRow>) returns (placeholder: bool, groups: map<string, OrderGroup>)
    ensures placeholder <==> rows == []
    ensures placeholder ==> groups == map[]
    ensures !placeholder ==> forall id :: id in groups <==> id in Ids(rows)
    ensures !placeholder ==> forall id :: id in groups ==> groups[id] == GroupOf(rows, |rows|, id)
  {
    if |rows| == 0 {
      return true, map[];
    }
    groups := GroupOrders(rows);
    placeholder := false;
  }

  // ---------------------------------------------------------------
  // Properties of the grouping
  // ---------------------------------------------------------------

  /** The sum of the item amounts of a list of items. */
  function ItemAmounts(items: seq<LineItem>): int {
    if items == [] then 0 else ItemAmounts(items[..|items| - 1]) + items[|items| - 1].itemAmount
  }

  /** An order's total is the sum of the amounts of its listed items. */
  lemma {:induction false} TotalIsSumOfItems(rows: seq<OrderRow>, n: nat, id: string)
    requires n <= |rows|
    ensures AmountFor(rows, n, id) == ItemAmounts(ItemsFor(rows, n, id))
  {
    if n > 0 {
      TotalIsSumOfItems(rows, n - 1, id);
      var items := ItemsFor(rows, n, id);
      if rows[n - 1].orderId == id {
        assert items[..|items| - 1] == ItemsFor(rows, n - 1, id);
      } else {
        assert items == ItemsFor(rows, n - 1, id);
      }
    }
  }

  /** Every row's item is listed in the group of its own order. */
  lemma {:induction false} RowListedInItsGroup(rows: seq<OrderRow>, n: nat, k: nat)
    requires k < n <= |rows|
    ensures ItemOf(rows[k]) in ItemsFor(rows, n, rows[k].orderId)
  {
    if k < n - 1 {
      RowListedInItsGroup(rows, n - 1, k);
    }
  }

  /** The number of items over the orders `ids`, after `n` rows. */
  function ItemCount(rows: seq<OrderRow>, n: nat, ids: seq<string>): int
    requires n <= |rows|
  {
    if ids == [] then 0 else |ItemsFor(rows, n, ids[0])| + ItemCount(rows, n, ids[1..])
  }

  /** The order totals over the orders `ids`, after `n` rows. */
  function TotalOf(rows: seq<OrderRow>, n: nat, ids: seq<string>): int
    requires n <= |rows|
  {
    if ids == [] then 0 else AmountFor(rows, n, ids[0]) + TotalOf(rows, n, ids[1..])
  }

  /** The sum of the amounts of the first `n` rows. */
  function RowAmounts(rows: seq<OrderRow>, n: nat): int
    requires n <= |rows|
  {
    if n == 0 then 0 else RowAmounts(rows, n - 1) + rows[n - 1].amount
  }

  /** Row `n - 1` adds one item and its amount to its own order and nothing to the others. */
  lemma {:induction false} OneMoreRow(rows: seq<OrderRow>, n: nat, ids: seq<string>)
    requires 1 <= n <= |rows| && Distinct(ids)
    ensures ItemCount(rows, n, ids) == ItemCount(rows, n - 1, ids) + (if rows[n - 1].orderId in ids then 1 else 0)
    ensures TotalOf(rows, n, ids) == TotalOf(rows, n - 1, ids) + (if rows[n - 1].orderId in ids then rows[n - 1].amount else 0)
  {
    if ids != [] {
      OneMoreRow(rows, n, ids[1..]);
      assert ids == [ids[0]] + ids[1..];
      assert rows[n - 1].orderId in ids[1..] ==> rows[n - 1].orderId != ids[0];
    }
  }

  /**
   * The groups partition the rows: over all orders there are as many items
   * as rows, and the order totals add up to the row amounts.
   */
  lemma {:induction false} GroupsPartitionRows(rows: seq<OrderRow>, n: nat)
    requires n <= |rows|
    ensures ItemCount(rows, n, FirstAppearances(rows, n)) == n
    ensures TotalOf(rows, n, FirstAppearances(rows, n)) == RowAmounts(rows, n)
  {
    if n > 0 {
      GroupsPartitionRows(rows, n - 1);
      var before := FirstAppearances(rows, n - 1);
      var id := rows[n - 1].orderId;
      FirstAppearancesDistinct(rows, n - 1);
      FirstAppearancesDistinct(rows, n);
      if id in before {
        OneMoreRow(rows, n, before);
      } else {
        assert Ids(rows)[..n - 1] == Ids(rows)[..n][..n - 1];
        NoRowsYet(rows, n - 1, id);
        OneMoreRow(rows, n, before + [id]);
        CountAppend(rows, n - 1, before, id);
      }
    }
  }

  /** Appending one order to the list adds its count and total. */
  lemma {:induction false} CountAppend(rows: seq<OrderRow>, n: nat, ids: seq<string>, id: string)
    requires n <= |rows|
    ensures ItemCount(rows, n, ids + [id]) == ItemCount(rows, n, ids) + |ItemsFor(rows, n, id)|
    ensures TotalOf(rows, n, ids + [id]) == TotalOf(rows, n, ids) + AmountFor(rows, n, id)
  {
    if ids != [] {
      CountAppend(rows, n, ids[1..], id);
      assert (ids + [id])[1..] == ids[1..] + [id];
    }
  }

  // ---------------------------------------------------------------
  // Status select
  // ---------------------------------------------------------------

  /** The statuses an order can be set to, in menu order. */
  const OrderStatuses: seq<string> := [
    "\U{65B0}\U{898F}",                          // new
    "\U{53D7}\U{4ED8}\U{6E08}\U{307F}",          // accepted
    "\U{8ABF}\U{7406}\U{4E2D}",                  // cooking
    "\U{914D}\U{9054}\U{4E2D}",                  // out for delivery
    "\U{5B8C}\U{4E86}",                          // done
    "\U{30AD}\U{30E3}\U{30F3}\U{30BB}\U{30EB}"   // cancelled
  ]

  datatype StatusOption = StatusOption(value: string, selected: bool)

  /** One `<option>` per value, selected when it equals `status`. */
  function Marked(values: seq<string>, status: string): (r: seq<StatusOption>)
    ensures |r| == |values|
    ensures forall k :: 0 <= k < |r| ==> r[k] == StatusOption(values[k], values[k] == status)
  {
    if values == [] then [] else [StatusOption(values[0], values[0] == status)] + Marked(values[1..], status)
  }

  /** The status select of an order. */
  function StatusOptions(status: string): seq<StatusOption> {
    Marked(OrderStatuses, status)
  }

  function CountSelected(os: seq<StatusOption>): nat {
    if os == [] then 0 else (if os[0].selected then 1 else 0) + CountSelected(os[1..])
  }

  predicate AnySelected(os: seq<StatusOption>) {
    exists k :: 0 <= k < |os| && os[k].selected
  }

  /** The value a select shows: its first selected option, or else its first option. */
  function ShownValue(os: seq<StatusOption>): string
    requires os != []
  {
    if os[0].selected || !AnySelected(os[1..]) then os[0].value else ShownValue(os[1..])
  }

  /** With distinct values, at most the one equal value is marked, and it is the one shown. */
  lemma {:induction false} MarkedDistinct(values: seq<string>, status: string)
    requires Distinct(values)
    ensures CountSelected(Marked(values, status)) == if status in values then 1 else 0
    ensures AnySelected(Marked(values, status)) <==> status in values
    ensures values != [] ==>
      ShownValue(Marked(values, status)) == if status in values then status else values[0]
  {
    if values != [] {
      var m := Marked(values, status);
      DistinctTail(values);
      MarkedDistinct(values[1..], status);
      assert m[1..] == Marked(values[1..], status);
      AnySelectedCons(m);
      assert status in values <==> status == values[0] || status in values[1..];
    }
  }

  /** The first value is not repeated later, and the later values are distinct too. */
  lemma DistinctTail(values: seq<string>)
    requires values != [] && Distinct(values)
    ensures values[0] !in values[1..] && Distinct(values[1..])
  {
    assert forall j :: 0 <= j < |values| - 1 ==> values[1..][j] == values[j + 1];
  }

  /** Some option is selected exactly when the first one is or one of the rest is. */
  lemma AnySelectedCons(os: seq<StatusOption>)
    requires os != []
    ensures AnySelected(os) <==> os[0].selected || AnySelected(os[1..])
  {
    if AnySelected(os) && !os[0].selected {
      var k :| 0 <= k < |os| && os[k].selected;
      assert os[1..][k - 1].selected;
    }
    if AnySelected(os[1..]) {
      var k :| 0 <= k < |os[1..]| && os[1..][k].selected;
      assert os[k + 1].selected;
    }
  }

  /**
   * Exactly one option is marked when the order's status is one of the
   * menu's statuses, and none otherwise; the select then shows the status,
   * or the first status (new) for an unknown one.
   */
  lemma StatusMarking(status: string)
    ensures CountSelected(StatusOptions(status)) == if status in OrderStatuses then 1 else 0
    ensures ShownValue(StatusOptions(status)) == if status in OrderStatuses then status else OrderStatuses[0]
  {
    StatusesDistinct();
    MarkedDistinct(OrderStatuses, status);
  }

  /** The six statuses differ already in their first character. */
  lemma StatusesDistinct()
    ensures Distinct(OrderStatuses)
  {
    forall i, j | 0 <= i < j < |OrderStatuses|
      ensures OrderStatuses[i] != OrderStatuses[j]
    {
      assert OrderStatuses[i][0] != OrderStatuses[j][0];
    }
  }
}
