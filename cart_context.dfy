/**
 * The shopping cart: a list of lines, one per book, each with a quantity.
 * Each operation computes the new list from the old one as a function; the
 * `Cart` class holds the current list and replaces it, as the cart provider's
 * state does.
 */
module CartContext {
  import opened Wrappers
  import opened Sequences
  import opened Types

  // ---------------------------------------------------------------------------
  // Lines and the cart invariant
  // ---------------------------------------------------------------------------

  /** A line's id is its book's id. */
  function LineId(item: CartItem): string
  {
    item.book.id
  }

  function LineHasId(id: string): CartItem -> bool
  {
    (item: CartItem) => item.book.id == id
  }

  function LineLacksId(id: string): CartItem -> bool
  {
    (item: CartItem) => item.book.id != id
  }

  /** One line per book, and every line holds at least one copy. */
  predicate WellFormed(items: seq<CartItem>)
  {
    && DistinctBy(LineId, items)
    && forall i :: 0 <= i < |items| ==> items[i].quantity >= 1
  }

  /** `g` applied to the lines of book `id`, every other line as it was (`items.map` with a test on the id). */
  function Rewritten(items: seq<CartItem>, id: string, g: CartItem -> CartItem): (r: seq<CartItem>)
    ensures |r| == |items|
    ensures forall i :: 0 <= i < |items| ==> r[i] == if items[i].book.id == id then g(items[i]) else items[i]
  {
    if items == [] then [] else [if items[0].book.id == id then g(items[0]) else items[0]] + Rewritten(items[1..], id, g)
  }

  /** With distinct ids, rewriting the lines of `id` rewrites the one line at `k`. */
  lemma RewrittenAt(items: seq<CartItem>, id: string, g: CartItem -> CartItem, k: int)
    requires DistinctBy(LineId, items)
    requires 0 <= k < |items| && items[k].book.id == id
    ensures Rewritten(items, id, g) == items[k := g(items[k])]
  {
    var r := Rewritten(items, id, g);
    forall i | 0 <= i < |items| ensures r[i] == items[k := g(items[k])][i] {
      if i != k {
        assert LineId(items[i]) != LineId(items[k]);
      }
    }
  }

  /** Rewriting the lines of an id that is not in the cart changes nothing. */
  lemma RewrittenAbsent(items: seq<CartItem>, id: string, g: CartItem -> CartItem)
    requires forall i :: 0 <= i < |items| ==> items[i].book.id != id
    ensures Rewritten(items, id, g) == items
  {
  }

  function Bump(item: CartItem): CartItem
  {
    item.(quantity := item.quantity + 1)
  }

  function SetQuantity(quantity: int): CartItem -> CartItem
  {
    (item: CartItem) => item.(quantity := quantity)
  }

  // ---------------------------------------------------------------------------
  // The new cart after each operation
  // ---------------------------------------------------------------------------

  /**
   * `addToCart`: a book already in the cart gets one more copy on its line
   * (the line keeps the book as first added); a new book is appended with one copy.
   */
  function AddedToCart(items: seq<CartItem>, book: Book): (r: seq<CartItem>)
    ensures Find(LineHasId(book.id), items).Some? ==>
      |r| == |items| &&
      forall i :: 0 <= i < |items| ==>
        if items[i].book.id == book.id then r[i].book == items[i].book && r[i].quantity == items[i].quantity + 1
        else r[i] == items[i]
    ensures Find(LineHasId(book.id), items).None? ==> r == items + [CartItem(book, 1)]
  {
    if Find(LineHasId(book.id), items).Some? then Rewritten(items, book.id, Bump)
    else items + [CartItem(book, 1)]
  }

  /** `removeFromCart`: every line of the book goes, the rest stay in order. */
  function RemovedFromCart(items: seq<CartItem>, bookId: string): (r: seq<CartItem>)
    ensures forall i :: 0 <= i < |r| ==> r[i].book.id != bookId
    ensures forall i :: 0 <= i < |items| && items[i].book.id != bookId ==> items[i] in r
    ensures IsSubsequence(r, items)
  {
    FilterIsSubsequence(LineLacksId(bookId), items);
    Filter(LineLacksId(bookId), items)
  }

  /**
   * `updateQuantity`: a quantity below 1 removes the book; otherwise the
   * book's line takes the new quantity and every other line stays.
   */
  function QuantityUpdated(items: seq<CartItem>, bookId: string, quantity: int): (r: seq<CartItem>)
    ensures quantity < 1 ==> r == RemovedFromCart(items, bookId)
    ensures quantity >= 1 ==>
      |r| == |items| &&
      forall i :: 0 <= i < |items| ==>
        if items[i].book.id == bookId then r[i].book == items[i].book && r[i].quantity == quantity
        else r[i] == items[i]
  {
    if quantity < 1 then RemovedFromCart(items, bookId)
    else Rewritten(items, bookId, SetQuantity(quantity))
  }

  function LineTotal(item: CartItem): int
  {
    item.book.price * item.quantity
  }

  function LineQuantity(item: CartItem): int
  {
    item.quantity
  }

  /** No line has a negative price or quantity. */
  predicate NonNegativeLines(items: seq<CartItem>)
  {
    forall x :: x in items ==> x.book.price >= 0 && x.quantity >= 0
  }

  lemma TotalNonNegative(items: seq<CartItem>)
    ensures NonNegativeLines(items) ==> Sum(LineTotal, items) >= 0
  {
    if NonNegativeLines(items) {
      forall x | x in items ensures LineTotal(x) >= 0 {
        assert x.book.price >= 0 && x.quantity >= 0;
      }
      SumAtLeast(LineTotal, items, 0);
    }
  }

  /** `getCartTotal`: the sum of price times quantity over the lines, in cents. */
  function CartTotal(items: seq<CartItem>): (r: int)
    ensures items == [] ==> r == 0
    ensures NonNegativeLines(items) ==> r >= 0
  {
    TotalNonNegative(items);
    Sum(LineTotal, items)
  }

  /** `getCartItemCount`: the number of copies in the cart. */
  function CartItemCount(items: seq<CartItem>): (r: int)
    ensures items == [] ==> r == 0
    ensures (forall x :: x in items ==> x.quantity >= 1) ==> r >= |items|
  {
    if forall x :: x in items ==> x.quantity >= 1 then
      SumAtLeast(LineQuantity, items, 1);
      Sum(LineQuantity, items)
    else
      Sum(LineQuantity, items)
  }

  // ---------------------------------------------------------------------------
  // What the operations promise
  // ---------------------------------------------------------------------------

  /** Adding keeps one line per book and at least one copy per line. */
  lemma AddKeepsWellFormed(items: seq<CartItem>, book: Book)
    requires WellFormed(items)
    ensures WellFormed(AddedToCart(items, book))
  {
    var r := AddedToCart(items, book);
    if Find(LineHasId(book.id), items).None? {
      forall i, j | 0 <= i < j < |r| ensures LineId(r[i]) != LineId(r[j]) {
        if j == |items| {
          assert !LineHasId(book.id)(items[i]);
        } else {
          assert r[i] == items[i] && r[j] == items[j];
        }
      }
    } else {
      forall i, j | 0 <= i < j < |r| ensures LineId(r[i]) != LineId(r[j]) {
        assert LineId(r[i]) == LineId(items[i]) && LineId(r[j]) == LineId(items[j]);
      }
    }
  }

  /** Adding a book puts exactly one more copy in the cart. */
  lemma AddCount(items: seq<CartItem>, book: Book)
    requires WellFormed(items)
    ensures CartItemCount(AddedToCart(items, book)) == CartItemCount(items) + 1
  {
    match FirstIndex(LineHasId(book.id), items)
    case None =>
      SumSnoc(LineQuantity, items, CartItem(book, 1));
    case Some(k) =>
      RewrittenAt(items, book.id, Bump, k);
      SumUpdate(LineQuantity, items, k, Bump(items[k]));
  }

  /**
   * Adding a book raises the total by one copy's price: the price recorded on
   * the book's line if it is already in the cart, the book's own price otherwise.
   */
  lemma AddTotal(items: seq<CartItem>, book: Book)
    requires WellFormed(items)
    ensures CartTotal(AddedToCart(items, book))
         == CartTotal(items) + match Find(LineHasId(book.id), items)
                               case Some(line) => line.book.price
                               case None => book.price
  {
    match FirstIndex(LineHasId(book.id), items)
    case None =>
      SumSnoc(LineTotal, items, CartItem(book, 1));
    case Some(k) =>
      BumpTotal(items, k);
      assert Find(LineHasId(book.id), items) == Some(items[k]);
  }

  /** One more copy costs one more unit price. */
  lemma BumpLineTotal(item: CartItem)
    ensures LineTotal(Bump(item)) == LineTotal(item) + item.book.price
  {
    var price, q := item.book.price, item.quantity;
    assert price * (q + 1) == price * q + price;
  }

  /** One more copy on the line at `k` adds that line's price to the total. */
  lemma BumpTotal(items: seq<CartItem>, k: int)
    requires DistinctBy(LineId, items)
    requires 0 <= k < |items|
    ensures CartTotal(Rewritten(items, items[k].book.id, Bump)) == CartTotal(items) + items[k].book.price
  {
    RewrittenAt(items, items[k].book.id, Bump, k);
    BumpLineTotal(items[k]);
    SumUpdate(LineTotal, items, k, Bump(items[k]));
  }

  /** Removing keeps one line per book and at least one copy per line. */
  lemma RemoveKeepsWellFormed(items: seq<CartItem>, bookId: string)
    requires WellFormed(items)
    ensures WellFormed(RemovedFromCart(items, bookId))
  {
    FilterKeepsDistinct(LineId, LineLacksId(bookId), items);
  }

  /** Removing a book that is not in the cart changes nothing. */
  lemma RemoveAbsent(items: seq<CartItem>, bookId: string)
    requires forall i :: 0 <= i < |items| ==> items[i].book.id != bookId
    ensures RemovedFromCart(items, bookId) == items
  {
    FilterKeepsAll(LineLacksId(bookId), items);
  }

  /** With distinct ids, removing the book of the line at `k` removes just that line. */
  lemma RemovedAt(items: seq<CartItem>, k: int)
    requires DistinctBy(LineId, items)
    requires 0 <= k < |items|
    ensures RemovedFromCart(items, items[k].book.id) == items[..k] + items[k + 1..]
  {
    var p := LineLacksId(items[k].book.id);
    var pre, post := items[..k], items[k + 1..];
    assert items == (pre + [items[k]]) + post;
    forall x | x in pre ensures p(x) {
      var i :| 0 <= i < |pre| && pre[i] == x;
      assert LineId(items[i]) != LineId(items[k]);
    }
    forall x | x in post ensures p(x) {
      var i :| 0 <= i < |post| && post[i] == x;
      assert LineId(items[k]) != LineId(items[k + 1 + i]);
    }
    FilterKeepsAll(p, pre);
    FilterKeepsAll(p, post);
    FilterAppend(p, pre + [items[k]], post);
    FilterSnoc(p, pre, items[k]);
  }

  /** Removing the line at `k` takes its copies out of the count and its cost out of the total. */
  lemma RemoveSums(items: seq<CartItem>, k: int)
    requires DistinctBy(LineId, items)
    requires 0 <= k < |items|
    ensures CartItemCount(RemovedFromCart(items, items[k].book.id)) == CartItemCount(items) - items[k].quantity
    ensures CartTotal(RemovedFromCart(items, items[k].book.id)) == CartTotal(items) - LineTotal(items[k])
  {
    RemovedAt(items, k);
    SumWithout(LineQuantity, items, k);
    SumWithout(LineTotal, items, k);
  }

  /** Updating a quantity keeps one line per book and at least one copy per line. */
  lemma UpdateKeepsWellFormed(items: seq<CartItem>, bookId: string, quantity: int)
    requires WellFormed(items)
    ensures WellFormed(QuantityUpdated(items, bookId, quantity))
  {
    if quantity < 1 {
      RemoveKeepsWellFormed(items, bookId);
    } else {
      var r := QuantityUpdated(items, bookId, quantity);
      forall i, j | 0 <= i < j < |r| ensures LineId(r[i]) != LineId(r[j]) {
        assert LineId(r[i]) == LineId(items[i]) && LineId(r[j]) == LineId(items[j]);
      }
    }
  }

  /** Setting the quantity of the line at `k` to `quantity` moves the count by the difference. */
  lemma UpdateCount(items: seq<CartItem>, k: int, quantity: int)
    requires DistinctBy(LineId, items)
    requires 0 <= k < |items| && quantity >= 1
    ensures CartItemCount(QuantityUpdated(items, items[k].book.id, quantity))
         == CartItemCount(items) - items[k].quantity + quantity
  {
    RewrittenAt(items, items[k].book.id, SetQuantity(quantity), k);
    SumUpdate(LineQuantity, items, k, SetQuantity(quantity)(items[k]));
  }

  /** Updating the quantity of a book that is not in the cart changes nothing. */
  lemma UpdateAbsent(items: seq<CartItem>, bookId: string, quantity: int)
    requires forall i :: 0 <= i < |items| ==> items[i].book.id != bookId
    ensures QuantityUpdated(items, bookId, quantity) == items
  {
    if quantity < 1 {
      RemoveAbsent(items, bookId);
    } else {
      RewrittenAbsent(items, bookId, SetQuantity(quantity));
    }
  }

  /** A well-formed cart holds at least as many copies as it has lines, and an empty cart none. */
  lemma CountAtLeastLines(items: seq<CartItem>)
    requires WellFormed(items)
    ensures CartItemCount(items) >= |items|
    ensures CartItemCount(items) == 0 <==> items == []
  {
    SumAtLeast(LineQuantity, items, 1);
  }

  // ---------------------------------------------------------------------------
  // The cart provider's state
  // ---------------------------------------------------------------------------

  class Cart {
    var cartItems: seq<CartItem>

    ghost predicate Valid()
      reads this
    {
      WellFormed(cartItems)
    }

    /** The provider starts with an empty cart. */
    constructor ()
      ensures Valid() && cartItems == []
    {
      cartItems := [];
    }

    method AddToCart(book: Book)
      requires Valid()
      modifies this
      ensures Valid()
      ensures cartItems == AddedToCart(old(cartItems), book)
    {
      AddKeepsWellFormed(cartItems, book);
      cartItems := AddedToCart(cartItems, book);
    }

    method RemoveFromCart(bookId: string)
      requires Valid()
      modifies this
      ensures Valid()
      ensures cartItems == RemovedFromCart(old(cartItems), bookId)
    {
      RemoveKeepsWellFormed(cartItems, bookId);
      cartItems := RemovedFromCart(cartItems, bookId);
    }

    method UpdateQuantity(bookId: string, quantity: int)
      requires Valid()
      modifies this
      ensures Valid()
      ensures cartItems == QuantityUpdated(old(cartItems), bookId, quantity)
    {
      if quantity < 1 {
        RemoveFromCart(bookId);
        return;
      }
      UpdateKeepsWellFormed(cartItems, bookId, quantity);
      cartItems := Rewritten(cartItems, bookId, SetQuantity(quantity));
    }

    method ClearCart()
      modifies this
      ensures Valid() && cartItems == []
      ensures CartTotal(cartItems) == 0 && CartItemCount(cartItems) == 0
    {
      cartItems := [];
    }
  }
}
