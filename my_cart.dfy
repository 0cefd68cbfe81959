/**
 The cart page of src/Pages/MyCart.tsx: the order total, the quantity and
 remove controls, and the checkout flow. The flow's asynchronous parts (the
 payment script loading, the payment widget's callbacks, the two-second timer)
 arrive as events; `Step` is the reference transition function and `CartPage`
 keeps the component's state fields and runs each event handler on them.
 */
module MyCart {
  import opened Seqs
  import opened Entities
  import opened Cart

  // ---------------------------------------------------------------------------
  // Total
  // ---------------------------------------------------------------------------

  /** One line's contribution, price times quantity. */
  function Subtotal(line: CartItem): int {
    line.price * line.quantity
  }

  /** calculateTotal: the left fold of the line subtotals, starting at 0. */
  function Total(items: seq<CartItem>): (r: int)
    ensures items == [] ==> r == 0
  {
    if items == [] then 0
    else Total(items[..|items| - 1]) + Subtotal(items[|items| - 1])
  }

  /** With no negative quantity the total is never negative. */
  lemma {:induction false} TotalNonNegative(items: seq<CartItem>)
    requires forall i :: 0 <= i < |items| ==> items[i].quantity >= 0
    ensures Total(items) >= 0
  {
    if items != [] {
      TotalNonNegative(items[..|items| - 1]);
    }
  }

  /** The total of a concatenation is the sum of the totals. */
  lemma {:induction false} TotalAppend(a: seq<CartItem>, b: seq<CartItem>)
    ensures Total(a + b) == Total(a) + Total(b)
  {
    if b == [] {
      assert a + b == a;
    } else {
      var ab := a + b;
      assert ab[..|ab| - 1] == a + b[..|b| - 1];
      assert ab[|ab| - 1] == b[|b| - 1];
      TotalAppend(a, b[..|b| - 1]);
    }
  }

  lemma TotalSingle(line: CartItem)
    ensures Total([line]) == Subtotal(line)
  {
    assert [line][..0] == [];
  }

  /** Replacing one line changes the total by the difference of the two subtotals. */
  lemma TotalChangeAt(items: seq<CartItem>, k: nat, line: CartItem)
    requires k < |items|
    ensures Total(items[k := line]) == Total(items) - Subtotal(items[k]) + Subtotal(line)
  {
    var pre, post := items[..k], items[k + 1..];
    SplitAt(items, k);
    SplitAt(items[k := line], k);
    assert items[k := line][..k] == pre && items[k := line][k + 1..] == post;
    TotalAppend(pre + [items[k]], post);
    TotalAppend(pre + [line], post);
    TotalAppend(pre, [items[k]]);
    TotalAppend(pre, [line]);
    TotalSingle(line);
    TotalSingle(items[k]);
  }

  /** A cart that differs from `items` only in line `k`'s quantity, by `d`, totals price times `d` more. */
  lemma TotalShiftAt(r: seq<CartItem>, items: seq<CartItem>, k: nat, d: int)
    requires |r| == |items| && k < |items| && r[k] == items[k].(quantity := items[k].quantity + d)
    requires forall i :: 0 <= i < |items| && i != k ==> r[i] == items[i]
    ensures Total(r) == Total(items) + items[k].price * d
  {
    PointwiseUpdate(r, items, k, r[k]);
    TotalChangeAt(items, k, r[k]);
    SubtotalShift(items[k], d);
  }

  /** A sequence that agrees with `items` everywhere except at `k`, where it holds `line`. */
  lemma PointwiseUpdate(r: seq<CartItem>, items: seq<CartItem>, k: nat, line: CartItem)
    requires |r| == |items| && k < |items| && r[k] == line
    requires forall i :: 0 <= i < |items| && i != k ==> r[i] == items[i]
    ensures r == items[k := line]
  {
  }

  /**
   Adding a product to a valid cart raises the total by one unit price: the price
   stored on its line when it is already there, its own price otherwise.
   */
  lemma TotalAfterAdd(items: seq<CartItem>, product: Product)
    requires Valid(items)
    ensures forall k :: 0 <= k < |items| && items[k].id == product.id ==>
      Total(AddToCart(items, product)) == Total(items) + items[k].price
    ensures product.id !in Ids(items) ==> Total(AddToCart(items, product)) == Total(items) + product.price
  {
    var r := AddToCart(items, product);
    if product.id in Ids(items) {
      forall k | 0 <= k < |items| && items[k].id == product.id
        ensures Total(r) == Total(items) + items[k].price
      {
        AddExisting(items, product, k);
        TotalShiftAt(r, items, k, 1);
      }
    } else {
      AddAbsent(items, product);
      assert r == r[..|items|] + [r[|items|]];
      TotalAppend(items, [LineFor(product, 1)]);
      TotalSingle(LineFor(product, 1));
    }
  }

  /** An accepted quantity change on a line of a valid cart rewrites that line only. */
  lemma UpdateAt(items: seq<CartItem>, k: nat, newQuantity: int)
    requires Valid(items) && k < |items| && newQuantity >= 1
    ensures |UpdateQuantity(items, items[k].id, newQuantity)| == |items|
    ensures UpdateQuantity(items, items[k].id, newQuantity)[k] == items[k].(quantity := newQuantity)
    ensures forall i :: 0 <= i < |items| && i != k ==> UpdateQuantity(items, items[k].id, newQuantity)[i] == items[i]
  {
    UpdateFrame(items, items[k].id, newQuantity);
    forall i | 0 <= i < |items| && i != k
      ensures items[i].id != items[k].id
    {
      assert Ids(items)[i] != Ids(items)[k];
    }
  }

  /** An accepted quantity change on a line of a valid cart replaces that line's subtotal in the total. */
  lemma TotalAfterUpdate(items: seq<CartItem>, k: nat, newQuantity: int)
    requires Valid(items) && k < |items| && newQuantity >= 1
    ensures Total(UpdateQuantity(items, items[k].id, newQuantity))
         == Total(items) - Subtotal(items[k]) + Subtotal(items[k].(quantity := newQuantity))
  {
    var r := UpdateQuantity(items, items[k].id, newQuantity);
    UpdateAt(items, k, newQuantity);
    PointwiseUpdate(r, items, k, r[k]);
    TotalChangeAt(items, k, r[k]);
  }

  /** Changing a line's quantity by `d` changes its subtotal by price times `d`. */
  lemma SubtotalShift(line: CartItem, d: int)
    ensures Subtotal(line.(quantity := line.quantity + d)) == Subtotal(line) + line.price * d
  {
    calc {
      Subtotal(line.(quantity := line.quantity + d));
      line.price * (line.quantity + d);
      { assert line.price * (line.quantity + d) == line.price * line.quantity + line.price * d; }
      Subtotal(line) + line.price * d;
    }
  }

  /** Removing a line of a valid cart lowers the total by that line's subtotal. */
  lemma TotalAfterRemove(items: seq<CartItem>, k: nat)
    requires Valid(items) && k < |items|
    ensures Total(RemoveItem(items, items[k].id)) == Total(items) - Subtotal(items[k])
  {
    var pre, post := items[..k], items[k + 1..];
    RemoveAt(items, k);
    SplitAt(items, k);
    TotalAppend(pre + [items[k]], post);
    TotalAppend(pre, [items[k]]);
    TotalAppend(pre, post);
    TotalSingle(items[k]);
  }

  // ---------------------------------------------------------------------------
  // Checkout state machine
  // ---------------------------------------------------------------------------

  /**
   Where the asynchronous checkout is. `LoadingScript` carries the cart as it
   was when pay was clicked: the handler's closure sees that snapshot when it
   computes the amount after the script has loaded.
   */
  datatype Stage = Idle | LoadingScript(snapshot: seq<CartItem>) | WidgetOpen(amount: int)

  /** The page's state together with the cart it displays. */
  datatype Page = Page(
    cartItems: seq<CartItem>,
    isProcessingPayment: bool,
    showSuccessModal: bool,
    stage: Stage,
    pendingClears: nat)

  /** What can happen on the page: clicks, and the outcomes of the asynchronous calls. */
  datatype Event =
    | PayClicked
    | ScriptLoaded(ok: bool)
    | PaymentSucceeded
    | PaymentDismissed
    | ClearTimerFired
    | IncrementClicked(line: nat)
    | DecrementClicked(line: nat)
    | RemoveClicked(line: nat)

  /** The cart controls: the +, − and remove buttons of a line. */
  predicate IsCartEdit(e: Event) {
    e.IncrementClicked? || e.DecrementClicked? || e.RemoveClicked?
  }

  /** The page as first rendered for a cart. */
  function Initial(cartItems: seq<CartItem>): (r: Page)
    ensures r.cartItems == cartItems && !r.isProcessingPayment && !r.showSuccessModal
  {
    Page(cartItems, false, false, Idle, 0)
  }

  /** The effect of one event; an event the page cannot receive in its state leaves it unchanged. */
  function Step(s: Page, e: Event): Page {
    match e
    case PayClicked =>
      // the button is disabled while processing; an empty cart is refused
      if s.isProcessingPayment || |s.cartItems| == 0 then s
      else s.(isProcessingPayment := true, stage := LoadingScript(s.cartItems))
    case ScriptLoaded(ok) =>
      if !s.stage.LoadingScript? then s
      else if !ok then s.(isProcessingPayment := false, stage := Idle)
      else s.(stage := WidgetOpen(Total(s.stage.snapshot)))
    case PaymentSucceeded =>
      if !s.stage.WidgetOpen? then s
      else s.(isProcessingPayment := false, showSuccessModal := true, stage := Idle,
              pendingClears := s.pendingClears + 1)
    case PaymentDismissed =>
      if !s.stage.WidgetOpen? then s
      else s.(isProcessingPayment := false, stage := Idle)
    case ClearTimerFired =>
      if s.pendingClears == 0 then s
      else s.(cartItems := ClearCart(), showSuccessModal := false, pendingClears := s.pendingClears - 1)
    case IncrementClicked(k) =>
      if k >= |s.cartItems| then s
      else s.(cartItems := UpdateQuantity(s.cartItems, s.cartItems[k].id, s.cartItems[k].quantity + 1))
    case DecrementClicked(k) =>
      // the button is disabled at quantity 1 or less
      if k >= |s.cartItems| || s.cartItems[k].quantity <= 1 then s
      else s.(cartItems := UpdateQuantity(s.cartItems, s.cartItems[k].id, s.cartItems[k].quantity - 1))
    case RemoveClicked(k) =>
      if k >= |s.cartItems| then s
      else s.(cartItems := RemoveItem(s.cartItems, s.cartItems[k].id))
  }

  /** The effect of a sequence of events, in order. */
  function Run(s: Page, events: seq<Event>): Page
    decreases |events|
  {
    if events == [] then s else Run(Step(s, events[0]), events[1..])
  }

  /**
   What every reachable page satisfies: the cart is valid, processing is shown
   exactly while a checkout is in flight, a checkout only starts on a non-empty
   cart, and the success modal is only up while a clear is pending.
   */
  predicate Inv(s: Page) {
    && Valid(s.cartItems)
    && (s.isProcessingPayment <==> !s.stage.Idle?)
    && (s.stage.LoadingScript? ==> |s.stage.snapshot| > 0)
    && (s.showSuccessModal ==> s.pendingClears > 0)
  }

  lemma InitialInv(cartItems: seq<CartItem>)
    requires Valid(cartItems)
    ensures Inv(Initial(cartItems))
  {
  }

  /** The cart controls keep the cart valid; in particular no quantity ever drops below 1. */
  lemma EditPreservesValid(s: Page, e: Event)
    requires Valid(s.cartItems) && IsCartEdit(e)
    ensures Valid(Step(s, e).cartItems)
  {
    match e
    case IncrementClicked(k) =>
      if k < |s.cartItems| {
        UpdatePreservesValid(s.cartItems, s.cartItems[k].id, s.cartItems[k].quantity + 1);
      }
    case DecrementClicked(k) =>
      if k < |s.cartItems| && s.cartItems[k].quantity > 1 {
        UpdatePreservesValid(s.cartItems, s.cartItems[k].id, s.cartItems[k].quantity - 1);
      }
    case RemoveClicked(k) =>
      if k < |s.cartItems| {
        RemovePreservesValid(s.cartItems, s.cartItems[k].id);
      }
  }

  /** Every event keeps the invariant. */
  lemma StepPreservesInv(s: Page, e: Event)
    requires Inv(s)
    ensures Inv(Step(s, e))
  {
    if IsCartEdit(e) {
      EditPreservesValid(s, e);
    }
  }

  lemma {:induction false} RunPreservesInv(s: Page, events: seq<Event>)
    requires Inv(s)
    ensures Inv(Run(s, events))
    decreases |events|
  {
    if events != [] {
      StepPreservesInv(s, events[0]);
      RunPreservesInv(Step(s, events[0]), events[1..]);
    }
  }

  /** Paying with an empty cart changes nothing: no processing, no payment started. */
  lemma EmptyCartCheckoutNoop(s: Page)
    requires s.cartItems == []
    ensures Step(s, PayClicked) == s
  {
  }

  /** While a payment is processing the pay button is disabled, so no second checkout starts. */
  lemma NoReentrantCheckout(s: Page)
    requires s.isProcessingPayment
    ensures Step(s, PayClicked) == s
  {
  }

  /** Paying with a non-empty cart while idle turns processing on and loads the script. */
  lemma CheckoutStarts(s: Page)
    requires !s.isProcessingPayment && |s.cartItems| > 0
    ensures Step(s, PayClicked).isProcessingPayment
    ensures Step(s, PayClicked).stage == LoadingScript(s.cartItems)
    ensures Step(s, PayClicked).cartItems == s.cartItems
  {
  }

  /** A failed script load turns processing off and leaves the cart and modal untouched. */
  lemma LoadFailureKeepsCart(s: Page)
    requires s.stage.LoadingScript?
    ensures Step(s, ScriptLoaded(false)) == s.(isProcessingPayment := false, stage := Idle)
  {
  }

  /** Cart edits during loading leave the click-time snapshot in place. */
  lemma {:induction false} EditsKeepSnapshot(s: Page, edits: seq<Event>)
    requires s.stage.LoadingScript?
    requires forall i :: 0 <= i < |edits| ==> IsCartEdit(edits[i])
    ensures Run(s, edits).stage == s.stage
    ensures Run(s, edits).isProcessingPayment == s.isProcessingPayment
    decreases |edits|
  {
    if edits != [] {
      EditsKeepSnapshot(Step(s, edits[0]), edits[1..]);
    }
  }

  /**
   The amount the widget is opened with is the total of the cart at the moment
   pay was clicked, whatever edits happened while the script was loading.
   */
  lemma AmountIsSnapshotTotal(s: Page, edits: seq<Event>)
    requires !s.isProcessingPayment && |s.cartItems| > 0
    requires forall i :: 0 <= i < |edits| ==> IsCartEdit(edits[i])
    ensures Run(s, [PayClicked] + edits + [ScriptLoaded(true)]).stage == WidgetOpen(Total(s.cartItems))
  {
    var started := Step(s, PayClicked);
    RunAppend(s, [PayClicked], edits);
    RunAppend(s, [PayClicked] + edits, [ScriptLoaded(true)]);
    assert Run(s, [PayClicked]) == started by { assert [PayClicked][1..] == []; }
    EditsKeepSnapshot(started, edits);
    var loaded := Run(started, edits);
    assert Run(loaded, [ScriptLoaded(true)]) == Step(loaded, ScriptLoaded(true)) by {
      assert [ScriptLoaded(true)][1..] == [];
    }
  }

  lemma {:induction false} RunAppend(s: Page, a: seq<Event>, b: seq<Event>)
    ensures Run(s, a + b) == Run(Run(s, a), b)
    decreases |a|
  {
    if a == [] {
      assert a + b == b;
    } else {
      assert (a + b)[1..] == a[1..] + b;
      RunAppend(Step(s, a[0]), a[1..], b);
    }
  }

  /**
   A successful payment turns processing off and shows the modal with the cart
   still there; the timer then clears the cart and hides the modal.
   */
  lemma SuccessThenTimerClears(s: Page)
    requires s.stage.WidgetOpen?
    ensures Step(s, PaymentSucceeded).cartItems == s.cartItems
    ensures !Step(s, PaymentSucceeded).isProcessingPayment && Step(s, PaymentSucceeded).showSuccessModal
    ensures Step(Step(s, PaymentSucceeded), ClearTimerFired).cartItems == []
    ensures !Step(Step(s, PaymentSucceeded), ClearTimerFired).showSuccessModal
    ensures !Step(Step(s, PaymentSucceeded), ClearTimerFired).isProcessingPayment
  {
  }

  /** A whole checkout whose script fails to load leaves the cart as it was and the page idle. */
  lemma CheckoutLoadFailure(s: Page)
    requires !s.isProcessingPayment && |s.cartItems| > 0
    ensures Run(s, [PayClicked, ScriptLoaded(false)]).cartItems == s.cartItems
    ensures !Run(s, [PayClicked, ScriptLoaded(false)]).isProcessingPayment
    ensures Run(s, [PayClicked, ScriptLoaded(false)]).stage == Idle
  {
    var s1 := Step(s, PayClicked);
    assert Run(s1, [ScriptLoaded(false)]) == Step(s1, ScriptLoaded(false)) by {
      assert [ScriptLoaded(false)][1..] == [];
    }
    assert [PayClicked, ScriptLoaded(false)][1..] == [ScriptLoaded(false)];
  }

  /** A whole checkout the customer cancels leaves the cart as it was and the page idle. */
  lemma CheckoutCancelled(s: Page)
    requires !s.isProcessingPayment && |s.cartItems| > 0
    ensures Run(s, [PayClicked, ScriptLoaded(true), PaymentDismissed]).cartItems == s.cartItems
    ensures !Run(s, [PayClicked, ScriptLoaded(true), PaymentDismissed]).isProcessingPayment
    ensures Run(s, [PayClicked, ScriptLoaded(true), PaymentDismissed]).stage == Idle
  {
    var s1 := Step(s, PayClicked);
    var s2 := Step(s1, ScriptLoaded(true));
    var s3 := Step(s2, PaymentDismissed);
    assert Run(s2, [PaymentDismissed]) == s3 by { assert [PaymentDismissed][1..] == []; }
    assert Run(s1, [ScriptLoaded(true), PaymentDismissed]) == s3 by {
      assert [ScriptLoaded(true), PaymentDismissed][1..] == [PaymentDismissed];
    }
    assert [PayClicked, ScriptLoaded(true), PaymentDismissed][1..] == [ScriptLoaded(true), PaymentDismissed];
  }

  /** A whole successful checkout, followed by the timer, ends with an empty cart and no modal. */
  lemma CheckoutSucceeded(s: Page)
    requires !s.isProcessingPayment && |s.cartItems| > 0
    ensures Run(s, [PayClicked, ScriptLoaded(true), PaymentSucceeded, ClearTimerFired]).cartItems == []
    ensures !Run(s, [PayClicked, ScriptLoaded(true), PaymentSucceeded, ClearTimerFired]).isProcessingPayment
    ensures !Run(s, [PayClicked, ScriptLoaded(true), PaymentSucceeded, ClearTimerFired]).showSuccessModal
  {
    var s1 := Step(s, PayClicked);
    var s2 := Step(s1, ScriptLoaded(true));
    var s3 := Step(s2, PaymentSucceeded);
    var s4 := Step(s3, ClearTimerFired);
    assert Run(s3, [ClearTimerFired]) == s4 by { assert [ClearTimerFired][1..] == []; }
    assert Run(s2, [PaymentSucceeded, ClearTimerFired]) == s4 by {
      assert [PaymentSucceeded, ClearTimerFired][1..] == [ClearTimerFired];
    }
    assert Run(s1, [ScriptLoaded(true), PaymentSucceeded, ClearTimerFired]) == s4 by {
      assert [ScriptLoaded(true), PaymentSucceeded, ClearTimerFired][1..] == [PaymentSucceeded, ClearTimerFired];
    }
    assert [PayClicked, ScriptLoaded(true), PaymentSucceeded, ClearTimerFired][1..]
        == [ScriptLoaded(true), PaymentSucceeded, ClearTimerFired];
  }

  /** Dismissing the widget turns processing off and leaves the cart untouched. */
  lemma DismissKeepsCart(s: Page)
    requires s.stage.WidgetOpen?
    ensures Step(s, PaymentDismissed) == s.(isProcessingPayment := false, stage := Idle)
  {
  }

  /** The decrement control does nothing at quantity 1 or less. */
  lemma DecrementAtOneRejected(s: Page, k: nat)
    requires k < |s.cartItems| && s.cartItems[k].quantity <= 1
    ensures Step(s, DecrementClicked(k)) == s
  {
  }

  /** Raising line `k`'s quantity by 1 raises the total by its price. */
  lemma TotalIncrementAt(items: seq<CartItem>, k: nat)
    requires k < |items|
    ensures Total(items[k := items[k].(quantity := items[k].quantity + 1)]) == Total(items) + items[k].price
  {
    TotalShiftAt(items[k := items[k].(quantity := items[k].quantity + 1)], items, k, 1);
  }

  /** Lowering line `k`'s quantity by 1 lowers the total by its price. */
  lemma TotalDecrementAt(items: seq<CartItem>, k: nat)
    requires k < |items|
    ensures Total(items[k := items[k].(quantity := items[k].quantity - 1)]) == Total(items) - items[k].price
  {
    TotalShiftAt(items[k := items[k].(quantity := items[k].quantity - 1)], items, k, -1);
  }

  /** The increment control raises one line's quantity by 1 and the total by its price. */
  lemma StepIncrement(s: Page, k: nat)
    requires Inv(s) && k < |s.cartItems|
    ensures Step(s, IncrementClicked(k)).cartItems
         == s.cartItems[k := s.cartItems[k].(quantity := s.cartItems[k].quantity + 1)]
    ensures Total(Step(s, IncrementClicked(k)).cartItems) == Total(s.cartItems) + s.cartItems[k].price
  {
    var items := s.cartItems;
    UpdateAt(items, k, items[k].quantity + 1);
    PointwiseUpdate(Step(s, IncrementClicked(k)).cartItems, items, k, items[k].(quantity := items[k].quantity + 1));
    TotalIncrementAt(items, k);
  }

  /** Above quantity 1 the decrement control lowers one line's quantity by 1 and the total by its price. */
  lemma StepDecrement(s: Page, k: nat)
    requires Inv(s) && k < |s.cartItems| && s.cartItems[k].quantity > 1
    ensures Step(s, DecrementClicked(k)).cartItems
         == s.cartItems[k := s.cartItems[k].(quantity := s.cartItems[k].quantity - 1)]
    ensures Total(Step(s, DecrementClicked(k)).cartItems) == Total(s.cartItems) - s.cartItems[k].price
  {
    var items := s.cartItems;
    UpdateAt(items, k, items[k].quantity - 1);
    PointwiseUpdate(Step(s, DecrementClicked(k)).cartItems, items, k, items[k].(quantity := items[k].quantity - 1));
    TotalDecrementAt(items, k);
  }

  /** The remove control drops exactly that line and its subtotal from the total. */
  lemma StepRemove(s: Page, k: nat)
    requires Inv(s) && k < |s.cartItems|
    ensures Step(s, RemoveClicked(k)).cartItems == s.cartItems[..k] + s.cartItems[k + 1..]
    ensures Total(Step(s, RemoveClicked(k)).cartItems) == Total(s.cartItems) - Subtotal(s.cartItems[k])
  {
    RemoveAt(s.cartItems, k);
    TotalAfterRemove(s.cartItems, k);
  }

  // ---------------------------------------------------------------------------
  // The component
  // ---------------------------------------------------------------------------

  /** The MyCart component's state fields, the cart it is given, and the in-flight checkout. */
  class CartPage {
    var cartItems: seq<CartItem>
    var isProcessingPayment: bool
    var showSuccessModal: bool
    var stage: Stage
    var pendingClears: nat

    /** The fields as a `Page` value. */
    function State(): Page
      reads this
    {
      Page(cartItems, isProcessingPayment, showSuccessModal, stage, pendingClears)
    }

    constructor (items: seq<CartItem>)
      ensures State() == Initial(items)
    {
      cartItems := items;
      isProcessingPayment := false;
      showSuccessModal := false;
      stage := Idle;
      pendingClears := 0;
    }

    /** handleProceedToPay up to the script load. */
    method ProceedToPay()
      modifies this
      ensures State() == Step(old(State()), PayClicked)
    {
      if isProcessingPayment {
        return;
      }
      if |cartItems| == 0 {
        return;
      }
      isProcessingPayment := true;
      stage := LoadingScript(cartItems);
    }

    /** The rest of handleProceedToPay, once the script load settles. */
    method ScriptSettled(ok: bool)
      modifies this
      ensures State() == Step(old(State()), ScriptLoaded(ok))
    {
      if !stage.LoadingScript? {
        return;
      }
      if !ok {
        isProcessingPayment := false;
        stage := Idle;
        return;
      }
      var totalAmount := Total(stage.snapshot);
      stage := WidgetOpen(totalAmount);
    }

    /** The widget's success handler. */
    method PaymentHandler()
      modifies this
      ensures State() == Step(old(State()), PaymentSucceeded)
    {
      if !stage.WidgetOpen? {
        return;
      }
      isProcessingPayment := false;
      showSuccessModal := true;
      pendingClears := pendingClears + 1;
      stage := Idle;
    }

    /** The widget's ondismiss callback. */
    method OnDismiss()
      modifies this
      ensures State() == Step(old(State()), PaymentDismissed)
    {
      if !stage.WidgetOpen? {
        return;
      }
      isProcessingPayment := false;
      stage := Idle;
    }

    /** The two-second timer set by the success handler. */
    method ClearTimer()
      modifies this
      ensures State() == Step(old(State()), ClearTimerFired)
    {
      if pendingClears == 0 {
        return;
      }
      cartItems := ClearCart();
      showSuccessModal := false;
      pendingClears := pendingClears - 1;
    }

    /** The + button of line `k`. */
    method Increment(k: nat)
      modifies this
      ensures State() == Step(old(State()), IncrementClicked(k))
    {
      if k < |cartItems| {
        var item := cartItems[k];
        cartItems := UpdateQuantity(cartItems, item.id, item.quantity + 1);
      }
    }

    /** The − button of line `k`, disabled at quantity 1 or less. */
    method Decrement(k: nat)
      modifies this
      ensures State() == Step(old(State()), DecrementClicked(k))
    {
      if k < |cartItems| && cartItems[k].quantity > 1 {
        var item := cartItems[k];
        cartItems := UpdateQuantity(cartItems, item.id, item.quantity - 1);
      }
    }

    /** The remove button of line `k`. */
    method Remove(k: nat)
      modifies this
      ensures State() == Step(old(State()), RemoveClicked(k))
    {
      if k < |cartItems| {
        cartItems := RemoveItem(cartItems, cartItems[k].id);
      }
    }
  }
}
