/**
 The cart store of src/App.tsx: the functional updaters passed to
 `setCartItems`, each building a new cart from the previous one.
 The store's invariant is `Valid`: one line per product id, every
 quantity at least 1.
 */
module Cart {
  import opened Wrappers
  import opened Seqs
  import opened Entities

  /** The ids of the lines, in cart order. */
  function Ids(items: seq<CartItem>): (r: seq<string>)
    ensures |r| == |items|
    ensures forall i :: 0 <= i < |items| ==> r[i] == items[i].id
  {
    seq(|items|, i requires 0 <= i < |items| => items[i].id)
  }

  /** The invariant the store keeps: ids are distinct and quantities are at least 1. */
  predicate Valid(items: seq<CartItem>) {
    && NoDup(Ids(items))
    && forall i :: 0 <= i < |items| ==> items[i].quantity >= 1
  }

  /** `prevItems.find(item => item.id === id)`, as the index of the line it finds. */
  function FindLine(items: seq<CartItem>, id: string): (r: Option<nat>)
    ensures r.None? <==> id !in Ids(items)
    ensures r.Some? ==> r.value < |items| && items[r.value].id == id
    ensures r.Some? ==> forall j :: 0 <= j < r.value ==> items[j].id != id
  {
    if items == [] then None
    else if items[0].id == id then Some(0)
    else match FindLine(items[1..], id)
      case None =>
        assert Ids(items) == [items[0].id] + Ids(items[1..]);
        None
      case Some(k) => Some(k + 1)
  }

  /** A line that is the first one carrying its id is what `FindLine` returns. */
  lemma FindLineFirst(items: seq<CartItem>, id: string, k: nat)
    requires k < |items| && items[k].id == id
    requires forall j :: 0 <= j < k ==> items[j].id != id
    ensures FindLine(items, id) == Some(k)
  {
    var r := FindLine(items, id);
    assert Ids(items)[k] == id;
  }

  /** Quantity of the line for `id` as the page sees it (first match), 0 when there is none. */
  function QuantityOf(items: seq<CartItem>, id: string): int {
    match FindLine(items, id)
    case None => 0
    case Some(k) => items[k].quantity
  }

  /** `{ ...product, quantity }`: the product's fields copied into a cart line. */
  function LineFor(product: Product, quantity: int): CartItem {
    CartItem(product.id, product.name, product.price, product.image, product.details, quantity)
  }

  /** `item.id === id ? { ...item, quantity: item.quantity + 1 } : item` over every line. */
  function IncrementLines(items: seq<CartItem>, id: string): seq<CartItem> {
    seq(|items|, i requires 0 <= i < |items| =>
      if items[i].id == id then items[i].(quantity := items[i].quantity + 1) else items[i])
  }

  /** handleAddToCart: increment the line for the product, or append a new line with quantity 1. */
  function AddToCart(items: seq<CartItem>, product: Product): (r: seq<CartItem>)
    ensures product.id in Ids(items) ==> Ids(r) == Ids(items)
    ensures product.id !in Ids(items) ==> Ids(r) == Ids(items) + [product.id]
  {
    match FindLine(items, product.id)
    case Some(_) => IncrementLines(items, product.id)
    case None => items + [LineFor(product, 1)]
  }

  /** `item.id === id ? { ...item, quantity: newQuantity } : item` over every line. */
  function SetLines(items: seq<CartItem>, id: string, newQuantity: int): seq<CartItem> {
    seq(|items|, i requires 0 <= i < |items| =>
      if items[i].id == id then items[i].(quantity := newQuantity) else items[i])
  }

  /** handleUpdateQuantity: rejected below 1, otherwise the matching line takes the new quantity. */
  function UpdateQuantity(items: seq<CartItem>, id: string, newQuantity: int): (r: seq<CartItem>)
    ensures Ids(r) == Ids(items)
    ensures newQuantity < 1 ==> r == items
    ensures id !in Ids(items) ==> r == items
  {
    if newQuantity < 1 then items
    else SetLines(items, id, newQuantity)
  }

  /** handleRemoveItem: `prevItems.filter(item => item.id !== id)`. */
  function RemoveItem(items: seq<CartItem>, id: string): (r: seq<CartItem>)
    ensures |r| <= |items|
    ensures forall i :: 0 <= i < |r| ==> r[i].id != id
    ensures forall line :: line in r ==> line in items
  {
    if items == [] then []
    else if items[0].id == id then RemoveItem(items[1..], id)
    else [items[0]] + RemoveItem(items[1..], id)
  }

  /** handleClearCart: the empty cart, which holds no line for any product. */
  function ClearCart(): (r: seq<CartItem>)
    ensures Valid(r)
    ensures forall id :: QuantityOf(r, id) == 0
  {
    []
  }

  // ---------------------------------------------------------------------------
  // Add-or-increment
  // ---------------------------------------------------------------------------

  /** Adding a product already in a valid cart bumps that one line by 1 and changes nothing else. */
  lemma AddExisting(items: seq<CartItem>, product: Product, k: nat)
    requires Valid(items) && k < |items| && items[k].id == product.id
    ensures |AddToCart(items, product)| == |items|
    ensures AddToCart(items, product)[k] == items[k].(quantity := items[k].quantity + 1)
    ensures forall j :: 0 <= j < |items| && j != k ==> AddToCart(items, product)[j] == items[j]
  {
    assert Ids(items)[k] == product.id;
    forall j | 0 <= j < |items| && j != k ensures items[j].id != product.id {
      assert Ids(items)[j] != Ids(items)[k];
    }
  }

  /** Adding a product not in the cart appends one line copied from it, with quantity 1. */
  lemma AddAbsent(items: seq<CartItem>, product: Product)
    requires product.id !in Ids(items)
    ensures |AddToCart(items, product)| == |items| + 1
    ensures AddToCart(items, product)[..|items|] == items
    ensures AddToCart(items, product)[|items|] == LineFor(product, 1)
  {
  }

  /** Add-or-increment keeps the store's invariant. */
  lemma AddPreservesValid(items: seq<CartItem>, product: Product)
    requires Valid(items)
    ensures Valid(AddToCart(items, product))
  {
    var r := AddToCart(items, product);
    if product.id !in Ids(items) {
      forall i, j | 0 <= i < j < |Ids(r)| ensures Ids(r)[i] != Ids(r)[j] {
        if j == |items| {
          assert Ids(r)[i] == Ids(items)[i];
        } else {
          assert Ids(r)[i] == Ids(items)[i] && Ids(r)[j] == Ids(items)[j];
        }
      }
    }
  }

  /** One add raises the quantity of the product's id by exactly 1 and leaves other ids alone. */
  lemma AddQuantity(items: seq<CartItem>, product: Product, id: string)
    ensures QuantityOf(AddToCart(items, product), id)
         == QuantityOf(items, id) + (if id == product.id then 1 else 0)
  {
    var r := AddToCart(items, product);
    match FindLine(items, id)
    case Some(k) =>
      if product.id in Ids(items) {
        forall j | 0 <= j < k ensures r[j].id != id { assert r[j].id == items[j].id; }
      } else {
        forall j | 0 <= j < k ensures r[j].id != id { assert r[j] == items[j]; }
        assert r[k] == items[k];
      }
      FindLineFirst(r, id, k);
    case None =>
      if id == product.id {
        assert product.id !in Ids(items);
        forall j | 0 <= j < |items| ensures r[j].id != id { assert r[j] == items[j]; }
        FindLineFirst(r, id, |items|);
      }
  }

  /** Adding each product of `products` in turn. */
  function AddAll(items: seq<CartItem>, products: seq<Product>): seq<CartItem>
    decreases |products|
  {
    if products == [] then items else AddAll(AddToCart(items, products[0]), products[1..])
  }

  /** How many of `products` carry `id`. */
  function CountId(products: seq<Product>, id: string): nat {
    if products == [] then 0
    else (if products[0].id == id then 1 else 0) + CountId(products[1..], id)
  }

  /** Each id's quantity grows by the number of adds of that id, and the invariant holds throughout. */
  lemma {:induction false} AddAllQuantities(items: seq<CartItem>, products: seq<Product>, id: string)
    requires Valid(items)
    ensures Valid(AddAll(items, products))
    ensures QuantityOf(AddAll(items, products), id) == QuantityOf(items, id) + CountId(products, id)
    ensures id in Ids(AddAll(items, products)) <==> id in Ids(items) || CountId(products, id) > 0
    decreases |products|
  {
    if products != [] {
      AddPreservesValid(items, products[0]);
      AddQuantity(items, products[0], id);
      AddAllQuantities(AddToCart(items, products[0]), products[1..], id);
    }
  }

  /** From the empty cart: one line per distinct product id, its quantity the number of adds. */
  lemma AddAllFromEmpty(products: seq<Product>, id: string)
    ensures Valid(AddAll([], products))
    ensures id in Ids(AddAll([], products)) <==> CountId(products, id) > 0
    ensures QuantityOf(AddAll([], products), id) == CountId(products, id)
  {
    AddAllQuantities([], products, id);
  }

  // ---------------------------------------------------------------------------
  // Set quantity
  // ---------------------------------------------------------------------------

  /** A request below 1 is rejected: the cart is returned as it was. */
  lemma UpdateBelowOneRejected(items: seq<CartItem>, id: string, newQuantity: int)
    requires newQuantity < 1
    ensures UpdateQuantity(items, id, newQuantity) == items
  {
  }

  /** An accepted request rewrites only the quantity of the matching lines. */
  lemma UpdateFrame(items: seq<CartItem>, id: string, newQuantity: int)
    requires newQuantity >= 1
    ensures |UpdateQuantity(items, id, newQuantity)| == |items|
    ensures forall i :: 0 <= i < |items| ==>
      UpdateQuantity(items, id, newQuantity)[i]
        == items[i].(quantity := if items[i].id == id then newQuantity else items[i].quantity)
  {
  }

  /** Set-quantity keeps the store's invariant. */
  lemma UpdatePreservesValid(items: seq<CartItem>, id: string, newQuantity: int)
    requires Valid(items)
    ensures Valid(UpdateQuantity(items, id, newQuantity))
  {
  }

  // ---------------------------------------------------------------------------
  // Remove
  // ---------------------------------------------------------------------------

  /** The ids left by a removal are the old ids without `id`, in order. */
  lemma {:induction false} RemoveIds(items: seq<CartItem>, id: string)
    ensures Ids(RemoveItem(items, id)) == Without(Ids(items), id)
  {
    if items != [] {
      assert Ids(items) == [items[0].id] + Ids(items[1..]);
      RemoveIds(items[1..], id);
      if items[0].id != id {
        var rest := RemoveItem(items[1..], id);
        assert Ids([items[0]] + rest) == [items[0].id] + Ids(rest);
      }
    }
  }

  /** Removal distributes over concatenation. */
  lemma {:induction false} RemoveAppend(a: seq<CartItem>, b: seq<CartItem>, id: string)
    ensures RemoveItem(a + b, id) == RemoveItem(a, id) + RemoveItem(b, id)
  {
    if a == [] {
      assert a + b == b;
    } else {
      assert (a + b)[1..] == a[1..] + b;
      RemoveAppend(a[1..], b, id);
    }
  }

  /** Removing an id no line carries is a no-op. */
  lemma {:induction false} RemoveAbsent(items: seq<CartItem>, id: string)
    requires forall i :: 0 <= i < |items| ==> items[i].id != id
    ensures RemoveItem(items, id) == items
  {
    if items != [] {
      RemoveAbsent(items[1..], id);
    }
  }

  /** Removal keeps exactly the lines whose id differs. */
  lemma {:induction false} RemoveMembers(items: seq<CartItem>, id: string, line: CartItem)
    ensures line in RemoveItem(items, id) <==> line in items && line.id != id
  {
    if items != [] {
      RemoveMembers(items[1..], id, line);
      assert line in items <==> line == items[0] || line in items[1..];
    }
  }

  /** Removing the id of the single line that carries it leaves the lines around it. */
  lemma RemoveSingle(pre: seq<CartItem>, line: CartItem, post: seq<CartItem>)
    requires forall i :: 0 <= i < |pre| ==> pre[i].id != line.id
    requires forall i :: 0 <= i < |post| ==> post[i].id != line.id
    ensures RemoveItem(pre + [line] + post, line.id) == pre + post
  {
    var id := line.id;
    RemoveAbsent(pre, id);
    RemoveAbsent(post, id);
    assert RemoveItem([line], id) == [] by {
      assert [line][1..] == [];
    }
    RemoveAppend(pre, [line], id);
    assert RemoveItem(pre + [line], id) == pre;
    RemoveAppend(pre + [line], post, id);
  }

  /** With distinct ids, removal deletes exactly the one line with the id and keeps the rest in order. */
  lemma RemoveAt(items: seq<CartItem>, k: nat)
    requires NoDup(Ids(items)) && k < |items|
    ensures RemoveItem(items, items[k].id) == items[..k] + items[k + 1..]
  {
    var pre, post := items[..k], items[k + 1..];
    DistinctFrom(items, k);
    forall i | 0 <= i < |pre| ensures pre[i].id != items[k].id {
      assert pre[i] == items[i];
    }
    forall i | 0 <= i < |post| ensures post[i].id != items[k].id {
      assert post[i] == items[k + 1 + i];
    }
    RemoveSingle(pre, items[k], post);
    SplitAt(items, k);
  }

  /** With distinct ids, no other line shares line `k`'s id. */
  lemma DistinctFrom(items: seq<CartItem>, k: nat)
    requires NoDup(Ids(items)) && k < |items|
    ensures forall i :: 0 <= i < |items| && i != k ==> items[i].id != items[k].id
  {
    var ids := Ids(items);
    forall i | 0 <= i < |items| && i != k ensures items[i].id != items[k].id {
      if i < k {
        assert ids[i] != ids[k];
      } else {
        assert ids[k] != ids[i];
      }
    }
  }

  /** Remove keeps the store's invariant. */
  lemma RemovePreservesValid(items: seq<CartItem>, id: string)
    requires Valid(items)
    ensures Valid(RemoveItem(items, id))
  {
    RemoveIds(items, id);
    WithoutPreservesNoDup(Ids(items), id);
    var r := RemoveItem(items, id);
    forall i | 0 <= i < |r| ensures r[i].quantity >= 1 {
      assert r[i] in r;
    }
  }
}
