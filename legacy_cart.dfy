/**
 * The older ordering page (docs/js/script.js): every product gets a cart
 * line when the product list arrives, the modal sets a line's quantity
 * (no options, no upper limit), and the order is sent with the name trimmed.
 *
 * Its cart is the option-less case of the current cart: every key has an
 * empty option list and every line a zero adjustment, so the totals,
 * counts and payload lines of `ProductOrder` apply unchanged.
 */
module LegacyOrder {
  import opened Wrappers
  import opened Text
  import opened ProductOrder

  datatype Product = Product(id: string, name: string, price: int)

  /** The product-list reply: an error object or the list of products. */
  datatype ProductsReply = ProductsError(error: string) | Products(list: seq<Product>)

  const DefaultLoadError: string := "\U{5546}\U{54C1}\U{30C7}\U{30FC}\U{30BF}\U{304C}\U{898B}\U{3064}\U{304B}\U{308A}\U{307E}\U{305B}\U{3093}\U{3067}\U{3057}\U{305F}\U{3002}Spread Sheet\U{3092}\U{78BA}\U{8A8D}\U{3057}\U{3066}\U{304F}\U{3060}\U{3055}\U{3044}\U{3002}"

  function KeyOf(id: string): CartKey {
    CartKey(id, [])
  }

  /** The line registered for a product: its id, name and price, quantity 0. */
  function FreshLine(p: Product): CartItem {
    CartItem(p.id, p.name, p.price, [], 0, 0)
  }

  /** The lines after registering the first `n` products of a list one after another. */
  function Register(items: map<CartKey, CartItem>, list: seq<Product>, n: nat): map<CartKey, CartItem>
    requires n <= |list|
  {
    if n == 0 then items
    else Register(items, list, n - 1)[KeyOf(list[n - 1].id) := FreshLine(list[n - 1])]
  }

  /**
   * The key order after registering the first `n` products: an id the
   * lines do not hold yet is appended.
   */
  function AppendIds(keys: seq<CartKey>, items: map<CartKey, CartItem>, list: seq<Product>, n: nat): seq<CartKey>
    requires n <= |list|
  {
    if n == 0 then keys
    else
      var ks := AppendIds(keys, items, list, n - 1);
      var k := KeyOf(list[n - 1].id);
      if k in Register(items, list, n - 1) then ks else ks + [k]
  }

  /** One of the first `n` products of the list has this id. */
  predicate ListsAmong(list: seq<Product>, n: nat, id: string)
    requires n <= |list|
  {
    exists j :: 0 <= j < n && list[j].id == id
  }

  /**
   * Registering the first `n` products gives every listed id a line with
   * quantity 0 taken from one of those products, and leaves every other
   * line as it was.
   */
  lemma {:induction false} RegisterLines(items: map<CartKey, CartItem>, list: seq<Product>, n: nat, k: CartKey)
    requires n <= |list|
    ensures k in Register(items, list, n) <==> k in items || (k.options == [] && ListsAmong(list, n, k.productId))
    ensures k.options == [] && ListsAmong(list, n, k.productId) ==>
      exists j :: 0 <= j < n && list[j].id == k.productId && Register(items, list, n)[k] == FreshLine(list[j])
    ensures !(k.options == [] && ListsAmong(list, n, k.productId)) && k in items ==> Register(items, list, n)[k] == items[k]
  {
    if n > 0 {
      RegisterLines(items, list, n - 1, k);
      var last := list[n - 1];
      if k.options == [] && ListsAmong(list, n, k.productId) && k != KeyOf(last.id) {
        var j :| 0 <= j < n && list[j].id == k.productId;
        assert j < n - 1;
        assert ListsAmong(list, n - 1, k.productId);
      }
      if k == KeyOf(last.id) {
        assert ListsAmong(list, n, k.productId);
      }
    }
  }

  /** The product-list reply shows an error (and changes nothing) when it is one or is empty. */
  function LoadError(reply: ProductsReply): (r: Option<string>)
    ensures r.None? <==> reply.Products? && reply.list != []
  {
    match reply
    case ProductsError(e) => Some(if e != "" then e else DefaultLoadError)
    case Products(list) => if list == [] then Some(DefaultLoadError) else None
  }

  /** The lower clamp of the modal's -/+ buttons; this page has no upper limit. */
  function ChangeQuantity(currentInput: Option<int>, delta: int, minInput: Option<int>): (r: int)
    ensures var v := OrDefault(currentInput, 1) + delta; var lo := OrDefault(minInput, 1);
      r >= lo && (v >= lo ==> r == v) && (v < lo ==> r == lo)
  {
    var v := OrDefault(currentInput, 1) + delta;
    var lo := OrDefault(minInput, 1);
    if v < lo then lo else v
  }

  /** Keys distinct and in step with the lines; no line has options or an adjustment. */
  predicate LegacyShape(keys: seq<CartKey>, items: map<CartKey, CartItem>) {
    Distinct(keys) && Covers(keys, items) && (forall k :: k in items ==> k in keys)
    && (forall k :: k in items ==> k.options == [] && items[k].optionPriceAdjustment == 0)
  }

  /** Registering one more product keeps the cart's shape. */
  lemma RegisterKeepsShape(ks: seq<CartKey>, its: map<CartKey, CartItem>, p: Product)
    requires LegacyShape(ks, its)
    ensures var k := KeyOf(p.id);
      LegacyShape(if k in its then ks else ks + [k], its[k := FreshLine(p)])
  {
    var k := KeyOf(p.id);
    if k !in its {
      AppendKeepsShape(ks, its, k, FreshLine(p));
    }
  }

  /** Registering the first `n` products of a list keeps the cart's shape. */
  lemma {:induction false} RegisterShape(keys: seq<CartKey>, items: map<CartKey, CartItem>, list: seq<Product>, n: nat)
    requires n <= |list| && LegacyShape(keys, items)
    ensures LegacyShape(AppendIds(keys, items, list, n), Register(items, list, n))
  {
    if n > 0 {
      RegisterShape(keys, items, list, n - 1);
      RegisterKeepsShape(AppendIds(keys, items, list, n - 1), Register(items, list, n - 1), list[n - 1]);
    }
  }

  /**
   * The registration loop: every product of the list, in order, gets a fresh
   * line; the lines stay in step with the keys and keep no options.
   */
  method RegisterProducts(keys: seq<CartKey>, items: map<CartKey, CartItem>, list: seq<Product>)
    returns (ks: seq<CartKey>, its: map<CartKey, CartItem>)
    requires LegacyShape(keys, items)
    ensures LegacyShape(ks, its)
    ensures its == Register(items, list, |list|) && ks == AppendIds(keys, items, list, |list|)
  {
    ks, its := keys, items;
    var i := 0;
    while i < |list|
      invariant 0 <= i <= |list|
      invariant its == Register(items, list, i) && ks == AppendIds(keys, items, list, i)
    {
      var k := KeyOf(list[i].id);
      if k !in its {
        ks := ks + [k];
      }
      its := its[k := FreshLine(list[i])];
      i := i + 1;
    }
    RegisterShape(keys, items, list, |list|);
  }

  /** After registering a whole list, the old lines are still there and every listed product has one. */
  lemma RegisterKeepsAndAdds(items: map<CartKey, CartItem>, list: seq<Product>)
    ensures forall k :: k in items ==> k in Register(items, list, |list|)
    ensures forall j :: 0 <= j < |list| ==> KeyOf(list[j].id) in Register(items, list, |list|)
  {
    forall k | k in items
      ensures k in Register(items, list, |list|)
    {
      RegisterLines(items, list, |list|, k);
    }
    forall j | 0 <= j < |list|
      ensures KeyOf(list[j].id) in Register(items, list, |list|)
    {
      assert ListsAmong(list, |list|, list[j].id);
      RegisterLines(items, list, |list|, KeyOf(list[j].id));
    }
  }

  datatype SetOutcome = ModalClosed | BadQuantity | Set(id: string, quantity: int)

  /** The order payload of this page: the trimmed name, the notes as typed, the ordered lines. */
  datatype LegacyPayload = LegacyPayload(customerName: string, notes: string, items: seq<OrderLine>)

  class LegacyCart {
    var keys: seq<CartKey>
    var items: map<CartKey, CartItem>
    var productsData: seq<Product>
    var currentProduct: Option<Product>

    ghost predicate Valid()
      reads this
    {
      LegacyShape(keys, items)
      && (forall j :: 0 <= j < |productsData| ==> KeyOf(productsData[j].id) in items)
      && (currentProduct.Some? ==> KeyOf(currentProduct.value.id) in items)
    }

    constructor ()
      ensures Valid() && keys == [] && items == map[] && productsData == [] && currentProduct == None
    {
      keys := [];
      items := map[];
      productsData := [];
      currentProduct := None;
    }

    /**
     * The product-list reply: an error or an empty list changes nothing;
     * otherwise every product is registered with quantity 0, in list order.
     */
    method DisplayProducts(reply: ProductsReply) returns (error: Option<string>)
      requires Valid()
      modifies this
      ensures Valid() && error == LoadError(reply) && currentProduct == old(currentProduct)
      ensures error.Some? ==> keys == old(keys) && items == old(items) && productsData == old(productsData)
      ensures error.None? ==>
        productsData == reply.list
        && items == Register(old(items), reply.list, |reply.list|)
        && keys == AppendIds(old(keys), old(items), reply.list, |reply.list|)
    {
      error := LoadError(reply);
      if error.Some? {
        return;
      }
      RegisterKeepsAndAdds(items, reply.list);
      keys, items := RegisterProducts(keys, items, reply.list);
      productsData := reply.list;
    }

    /** Opening a product: the modal's quantity starts at the line's quantity if positive, else 1. */
    method OpenModal(productId: string) returns (initialQuantity: Option<int>)
      requires Valid()
      modifies this
      ensures Valid() && keys == old(keys) && items == old(items) && productsData == old(productsData)
      ensures initialQuantity.None? <==> !ListsAmong(productsData, |productsData|, productId)
      ensures initialQuantity.None? ==> currentProduct == old(currentProduct)
      ensures initialQuantity.Some? ==>
        currentProduct.Some? && currentProduct.value.id == productId && currentProduct.value in productsData
        && (items[KeyOf(productId)].quantity > 0 ==> initialQuantity.value == items[KeyOf(productId)].quantity)
        && (items[KeyOf(productId)].quantity <= 0 ==> initialQuantity.value == 1)
    {
      var j := 0;
      while j < |productsData| && productsData[j].id != productId
        invariant 0 <= j <= |productsData|
        invariant forall i :: 0 <= i < j ==> productsData[i].id != productId
      {
        j := j + 1;
      }
      if j == |productsData| {
        return None;
      }
      currentProduct := Some(productsData[j]);
      var q := items[KeyOf(productId)].quantity;
      initialQuantity := Some(if q > 0 then q else 1);
    }

    method CloseModal()
      requires Valid()
      modifies this
      ensures Valid() && currentProduct == None
      ensures keys == old(keys) && items == old(items) && productsData == old(productsData)
    {
      currentProduct := None;
    }

    /** The "add to cart" button: the open product's quantity is set (not added to). */
    method AddFromModal(quantityInput: Option<int>) returns (outcome: SetOutcome)
      requires Valid()
      modifies this
      ensures Valid() && keys == old(keys) && productsData == old(productsData) && currentProduct == old(currentProduct)
      ensures currentProduct.None? ==> outcome == ModalClosed && items == old(items)
      ensures currentProduct.Some? && OrDefault(quantityInput, 0) <= 0 ==> outcome == BadQuantity && items == old(items)
      ensures currentProduct.Some? && OrDefault(quantityInput, 0) > 0 ==>
        var k := KeyOf(currentProduct.value.id);
        outcome == Set(currentProduct.value.id, OrDefault(quantityInput, 0))
        && items == old(items)[k := old(items)[k].(quantity := OrDefault(quantityInput, 0))]
        && CartTotal(keys, items) == old(CartTotal(keys, items)) - LineAmount(old(items)[k]) + LineAmount(items[k])
    {
      if currentProduct.None? {
        return ModalClosed;
      }
      var q := OrDefault(quantityInput, 0);
      if q <= 0 {
        return BadQuantity;
      }
      var k := KeyOf(currentProduct.value.id);
      var it := items[k].(quantity := q);
      TotalAfterLineChange(keys, items, k, it);
      items := items[k := it];
      outcome := Set(currentProduct.value.id, q);
    }

    /** Sets a line's quantity to the parsed input (0 when not a number). */
    method UpdateCart(id: string, quantityInput: Option<int>)
      requires Valid()
      modifies this
      ensures Valid() && keys == old(keys) && productsData == old(productsData) && currentProduct == old(currentProduct)
      ensures KeyOf(id) in old(items) ==>
        items == old(items)[KeyOf(id) := old(items)[KeyOf(id)].(quantity := OrDefault(quantityInput, 0))]
      ensures KeyOf(id) !in old(items) ==> items == old(items)
    {
      var k := KeyOf(id);
      if k in items {
        items := items[k := items[k].(quantity := OrDefault(quantityInput, 0))];
      }
    }

    /** The totals the cart shows: price times quantity over the lines with a positive quantity. */
    method RenderCart() returns (total: int, count: int, showsEmpty: bool)
      requires Valid()
      ensures total == CartTotal(keys, items)
      ensures count == ItemCount(keys, items)
      ensures showsEmpty <==> OrderLinesOf(keys, items) == []
    {
      total, count := 0, 0;
      var i := 0;
      while i < |keys|
        invariant 0 <= i <= |keys|
        invariant total == CartTotal(keys[..i], items)
        invariant count == ItemCount(keys[..i], items)
      {
        assert keys[..i + 1][..i] == keys[..i];
        var it := items[keys[i]];
        assert it.optionPriceAdjustment == 0;
        if it.quantity > 0 {
          total := total + it.price * it.quantity;
          count := count + it.quantity;
        }
        i := i + 1;
      }
      assert keys[..i] == keys;
      CountMatchesOrderLines(keys, items);
      showsEmpty := count == 0;
    }

    /** The order button: a blank name first, then a cart without any positive quantity, is refused. */
    function SubmitOrder(customerName: string, notes: string): (r: Result<LegacyPayload, SubmitError>)
      reads this
      requires Valid()
      ensures r.Err? && r.error == MissingName <==> Trim(customerName) == []
      ensures r.Err? && r.error == NoItems <==> Trim(customerName) != [] && ItemCount(keys, items) == 0
      ensures r.Ok? ==> r.value == LegacyPayload(Trim(customerName), notes, OrderLinesOf(keys, items))
    {
      CountMatchesOrderLines(keys, items);
      var name := Trim(customerName);
      if name == [] then Err(MissingName)
      else
        var lines := OrderLinesOf(keys, items);
        if lines == [] then Err(NoItems) else Ok(LegacyPayload(name, notes, lines))
    }

    /** On a "success" reply every quantity goes to 0; any other reply leaves the cart alone. */
    method HandleOrderSuccess(response: OrderResponse) returns (succeeded: bool)
      requires Valid()
      modifies this
      ensures Valid() && keys == old(keys) && productsData == old(productsData) && currentProduct == old(currentProduct)
      ensures succeeded <==> response.status == "success"
      ensures !succeeded ==> items == old(items)
      ensures succeeded ==>
        items.Keys == old(items).Keys
        && (forall k :: k in items ==> items[k] == old(items)[k].(quantity := 0))
        && CartTotal(keys, items) == 0 && OrderLinesOf(keys, items) == []
    {
      succeeded := response.status == "success";
      if !succeeded {
        return;
      }
      ghost var before := items;
      assert Covers(keys, before);
      var i := 0;
      while i < |keys|
        invariant 0 <= i <= |keys| && keys == old(keys)
        invariant productsData == old(productsData) && currentProduct == old(currentProduct)
        invariant items == ZeroLines(before, keys[..i])
      {
        ZeroLinesStep(before, keys, i);
        items := items[keys[i] := items[keys[i]].(quantity := 0)];
        i := i + 1;
      }
      assert keys[..i] == keys;
      ZeroAll(keys, before);
    }
  }
}
