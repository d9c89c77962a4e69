/** The shopping cart as a value: an ordered list of lines, the update rules
    of `addProductToCart`, `removeFromCart` and `handleAddToCart`, and the two
    totals the cart badge and the cart dropdown display. The class that holds
    the cart and updates it in place is in module App. */
module Cart {
  import opened Catalog

  /** A cart line: the product's id, the fields copied from its catalog record
      (the image URL is not modelled) and the quantity. */
  datatype Line = Line(id: int, name: string, price: int, description: string, quantity: int)

  /** The line `handleAddToCart` builds for a catalog product. */
  function CatalogLine(id: int, quantity: int): (l: Line)
    requires id in Products()
    ensures l.id == id && l.quantity == quantity && l.price > 0
    ensures LineFromCatalog(l)
  {
    var p := Products()[id];
    Line(id, p.name, p.price, p.description, quantity)
  }

  /** `cart.findIndex(item => item.id === id)`: the first line with that id,
      or -1 when there is none. */
  function IndexOf(cart: seq<Line>, id: int): (i: int)
    ensures -1 <= i < |cart|
    ensures i == -1 <==> forall k :: 0 <= k < |cart| ==> cart[k].id != id
    ensures 0 <= i ==> cart[i].id == id && forall k :: 0 <= k < i ==> cart[k].id != id
  {
    if cart == [] then -1
    else if cart[0].id == id then 0
    else
      var j := IndexOf(cart[1..], id);
      if j < 0 then -1 else j + 1
  }

  /** Some line of the cart has the id. */
  predicate HasId(cart: seq<Line>, id: int) {
    exists k :: 0 <= k < |cart| && cart[k].id == id
  }

  /** One line per product id. */
  predicate DistinctIds(cart: seq<Line>) {
    forall i, j :: 0 <= i < j < |cart| ==> cart[i].id != cart[j].id
  }

  /** Every line names a catalog product and carries that product's name,
      price and description. */
  predicate FromCatalog(cart: seq<Line>) {
    forall k :: 0 <= k < |cart| ==> LineFromCatalog(cart[k])
  }

  predicate LineFromCatalog(l: Line) {
    && l.id in Products()
    && l.name == Products()[l.id].name
    && l.price == Products()[l.id].price
    && l.description == Products()[l.id].description
  }

  /** The cart invariant every reachable cart satisfies. */
  predicate CartInvariant(cart: seq<Line>) {
    DistinctIds(cart) && FromCatalog(cart)
  }

  /** The quantity in the cart of the product with that id (0 when absent). */
  function QuantityOf(cart: seq<Line>, id: int): int {
    var i := IndexOf(cart, id);
    if i < 0 then 0 else cart[i].quantity
  }

  /** `addProductToCart(line)`: an existing line for the id has its quantity
      increased (with no upper bound); otherwise the line is appended. */
  function AddLine(cart: seq<Line>, line: Line): (r: seq<Line>)
    ensures IndexOf(cart, line.id) >= 0 ==> |r| == |cart|
    ensures IndexOf(cart, line.id) < 0 ==> |r| == |cart| + 1
  {
    var i := IndexOf(cart, line.id);
    if i >= 0 then cart[i := cart[i].(quantity := cart[i].quantity + line.quantity)]
    else cart + [line]
  }

  /** `removeFromCart(id)`: the first line with that id spliced out. */
  function RemoveLine(cart: seq<Line>, id: int): (r: seq<Line>)
    ensures IndexOf(cart, id) >= 0 ==> |r| == |cart| - 1
    ensures IndexOf(cart, id) < 0 ==> r == cart
  {
    var i := IndexOf(cart, id);
    if i < 0 then cart else cart[..i] + cart[i + 1..]
  }

  /** `handleAddToCart(id, quantity)` once its delay has passed: an id that
      is not in the catalog changes nothing; otherwise the catalog line is added. */
  function AddToCart(cart: seq<Line>, id: int, quantity: int): (r: seq<Line>)
    ensures id !in Products() ==> r == cart
    ensures id in Products() ==> QuantityOf(r, id) == QuantityOf(cart, id) + quantity
  {
    if id in Products() then
      var line := CatalogLine(id, quantity);
      AddLineQuantity(cart, line);
      AddLine(cart, line)
    else
      cart
  }

  /** The added quantity lands on the first line with the id, or on the
      appended line. */
  lemma AddLineQuantity(cart: seq<Line>, line: Line)
    ensures QuantityOf(AddLine(cart, line), line.id) == QuantityOf(cart, line.id) + line.quantity
  {
    var i := IndexOf(cart, line.id);
    var r := AddLine(cart, line);
    if i >= 0 {
      assert forall k :: 0 <= k < i ==> r[k] == cart[k];
      assert r[i].id == line.id;
      assert IndexOf(r, line.id) == i;
    } else {
      assert forall k :: 0 <= k < |cart| ==> r[k] == cart[k];
      assert r[|cart|] == line;
      assert IndexOf(r, line.id) == |cart|;
    }
  }

  /** The count on the cart badge (`updateCartDisplay`): the sum of the quantities. */
  function ItemCount(cart: seq<Line>): int {
    if cart == [] then 0 else cart[0].quantity + ItemCount(cart[1..])
  }

  /** The total in the cart dropdown (`updateCartDropdownContent`): the sum of
      price times quantity. */
  function TotalPrice(cart: seq<Line>): int {
    if cart == [] then 0 else LineTotal(cart[0]) + TotalPrice(cart[1..])
  }

  /** The amount shown on one line of the dropdown: price times quantity. */
  function LineTotal(l: Line): int {
    l.price * l.quantity
  }

  // ---------------------------------------------------------------------
  // Lookup

  /** The first index with the id is the only one once ids are distinct. */
  lemma IndexOfDistinct(cart: seq<Line>, k: int)
    requires DistinctIds(cart) && 0 <= k < |cart|
    ensures IndexOf(cart, cart[k].id) == k
  {
  }

  // ---------------------------------------------------------------------
  // Adding

  /** Adding a product already in the cart raises that line's quantity by
      the added amount and leaves the length, the other lines and every other
      field of that line as they were. */
  lemma AddMergesExisting(cart: seq<Line>, line: Line, i: int)
    requires DistinctIds(cart) && 0 <= i < |cart| && cart[i].id == line.id
    ensures |AddLine(cart, line)| == |cart|
    ensures AddLine(cart, line)[i] == cart[i].(quantity := cart[i].quantity + line.quantity)
    ensures forall k :: 0 <= k < |cart| && k != i ==> AddLine(cart, line)[k] == cart[k]
  {
    IndexOfDistinct(cart, i);
  }

  /** Adding a product not yet in the cart appends exactly that line, after
      the earlier lines in their order. */
  lemma AddAppendsNew(cart: seq<Line>, line: Line)
    requires !HasId(cart, line.id)
    ensures AddLine(cart, line) == cart + [line]
  {
    assert IndexOf(cart, line.id) < 0;
  }

  /** Adding keeps one line per id. */
  lemma AddKeepsDistinct(cart: seq<Line>, line: Line)
    requires DistinctIds(cart)
    ensures DistinctIds(AddLine(cart, line))
  {
  }

  /** Adding a catalog line keeps every line faithful to the catalog. */
  lemma AddKeepsCatalog(cart: seq<Line>, line: Line)
    requires FromCatalog(cart) && LineFromCatalog(line)
    ensures FromCatalog(AddLine(cart, line))
  {
  }

  /** The added quantity accumulates on the added product and nowhere else. */
  lemma AddQuantities(cart: seq<Line>, line: Line, id: int)
    requires DistinctIds(cart)
    ensures QuantityOf(AddLine(cart, line), id) ==
      QuantityOf(cart, id) + (if id == line.id then line.quantity else 0)
  {
    var i := IndexOf(cart, line.id);
    var r := AddLine(cart, line);
    AddKeepsDistinct(cart, line);
    if i >= 0 {
      IndexOfDistinct(r, i);
      var j := IndexOf(cart, id);
      if j >= 0 {
        IndexOfDistinct(r, j);
      }
    } else {
      IndexOfDistinct(r, |cart|);
      var j := IndexOf(cart, id);
      if j >= 0 {
        IndexOfDistinct(r, j);
      }
    }
  }

  // ---------------------------------------------------------------------
  // Removing

  /** Removing an id that is in the cart deletes exactly its line: the others
      stay in their order and no line with that id remains. */
  lemma RemoveDeletesLine(cart: seq<Line>, i: int)
    requires DistinctIds(cart) && 0 <= i < |cart|
    ensures RemoveLine(cart, cart[i].id) == cart[..i] + cart[i + 1..]
    ensures !HasId(RemoveLine(cart, cart[i].id), cart[i].id)
  {
    IndexOfDistinct(cart, i);
    var r := cart[..i] + cart[i + 1..];
    forall k | 0 <= k < |r| ensures r[k].id != cart[i].id {
      assert r[k] == cart[if k < i then k else k + 1];
    }
  }

  /** Removing keeps the invariant. */
  lemma RemoveKeepsInvariant(cart: seq<Line>, id: int)
    requires CartInvariant(cart)
    ensures CartInvariant(RemoveLine(cart, id))
  {
    var i := IndexOf(cart, id);
    if i >= 0 {
      var r := RemoveLine(cart, id);
      forall a, b | 0 <= a < b < |r| ensures r[a].id != r[b].id {
        var a' := if a < i then a else a + 1;
        var b' := if b < i then b else b + 1;
        assert r[a] == cart[a'] && r[b] == cart[b'];
      }
      forall k | 0 <= k < |r| ensures LineFromCatalog(r[k]) {
        assert r[k] == cart[if k < i then k else k + 1];
      }
    }
  }

  /** Removing twice is removing once. */
  lemma RemoveTwice(cart: seq<Line>, id: int)
    requires DistinctIds(cart)
    ensures RemoveLine(RemoveLine(cart, id), id) == RemoveLine(cart, id)
  {
    var i := IndexOf(cart, id);
    if i >= 0 {
      RemoveDeletesLine(cart, i);
      var r := RemoveLine(cart, id);
      assert IndexOf(r, id) < 0;
    }
  }

  /** Adding a new product and then removing it gives back the cart. */
  lemma RemoveUndoesAdd(cart: seq<Line>, line: Line)
    requires !HasId(cart, line.id)
    ensures RemoveLine(AddLine(cart, line), line.id) == cart
  {
    AddAppendsNew(cart, line);
    var r := cart + [line];
    assert IndexOf(r, line.id) == |cart| by {
      forall k | 0 <= k < |cart| ensures r[k].id != line.id {
        assert r[k] == cart[k];
      }
      assert r[|cart|] == line;
    }
    assert r[..|cart|] == cart && r[|cart| + 1..] == [];
  }

  // ---------------------------------------------------------------------
  // Totals

  lemma {:induction false} TotalsConcat(a: seq<Line>, b: seq<Line>)
    ensures ItemCount(a + b) == ItemCount(a) + ItemCount(b)
    ensures TotalPrice(a + b) == TotalPrice(a) + TotalPrice(b)
  {
    if a == [] {
      assert a + b == b;
    } else {
      assert (a + b)[1..] == a[1..] + b;
      TotalsConcat(a[1..], b);
    }
  }

  lemma TotalsSplit(cart: seq<Line>, i: int)
    requires 0 <= i < |cart|
    ensures ItemCount(cart) == ItemCount(cart[..i]) + cart[i].quantity + ItemCount(cart[i + 1..])
    ensures TotalPrice(cart) == TotalPrice(cart[..i]) + LineTotal(cart[i]) + TotalPrice(cart[i + 1..])
  {
    var pre, tail := cart[..i], cart[i..];
    assert cart == pre + tail;
    TotalsConcat(pre, tail);
    TotalsCons(tail);
  }

  lemma TotalsCons(tail: seq<Line>)
    requires tail != []
    ensures ItemCount(tail) == tail[0].quantity + ItemCount(tail[1..])
    ensures TotalPrice(tail) == LineTotal(tail[0]) + TotalPrice(tail[1..])
  {
  }

  lemma LineTotalGrows(l: Line, q: int)
    ensures LineTotal(l.(quantity := l.quantity + q)) == LineTotal(l) + l.price * q
  {
    assert l.price * (l.quantity + q) == l.price * l.quantity + l.price * q;
  }

  /** Merging quantity q into line i raises the totals by q and by that
      line's price times q. */
  lemma MergeRaisesTotals(cart: seq<Line>, i: int, q: int)
    requires 0 <= i < |cart|
    ensures var r := cart[i := cart[i].(quantity := cart[i].quantity + q)];
      && ItemCount(r) == ItemCount(cart) + q
      && TotalPrice(r) == TotalPrice(cart) + cart[i].price * q
  {
    var r := cart[i := cart[i].(quantity := cart[i].quantity + q)];
    TotalsSplit(cart, i);
    TotalsSplit(r, i);
    assert r[..i] == cart[..i] && r[i + 1..] == cart[i + 1..];
    LineTotalGrows(cart[i], q);
  }

  /** Adding quantity q of a catalog product raises the item count by q and
      the total price by the product's price times q. */
  lemma AddRaisesTotals(cart: seq<Line>, line: Line)
    requires FromCatalog(cart) && LineFromCatalog(line)
    ensures ItemCount(AddLine(cart, line)) == ItemCount(cart) + line.quantity
    ensures TotalPrice(AddLine(cart, line)) ==
      TotalPrice(cart) + Products()[line.id].price * line.quantity
  {
    var i := IndexOf(cart, line.id);
    if i >= 0 {
      assert LineFromCatalog(cart[i]);
      MergeRaisesTotals(cart, i, line.quantity);
    } else {
      TotalsConcat(cart, [line]);
    }
  }

  /** Removing a product's line lowers the item count by its quantity and the
      total price by its price times its quantity. */
  lemma RemoveLowersTotals(cart: seq<Line>, id: int)
    requires FromCatalog(cart)
    ensures ItemCount(RemoveLine(cart, id)) == ItemCount(cart) - QuantityOf(cart, id)
    ensures id in Products() ==>
      TotalPrice(RemoveLine(cart, id)) == TotalPrice(cart) - Products()[id].price * QuantityOf(cart, id)
  {
    var i := IndexOf(cart, id);
    if i >= 0 {
      TotalsSplit(cart, i);
      TotalsConcat(cart[..i], cart[i + 1..]);
    }
  }

  /** With quantities of at least one, the badge shows a positive count
      exactly when the cart has lines, the same test the dropdown uses to
      choose between the empty view and the item list. */
  lemma {:induction false} BadgeMatchesEmptiness(cart: seq<Line>)
    requires forall k :: 0 <= k < |cart| ==> cart[k].quantity >= 1
    ensures ItemCount(cart) >= |cart|
    ensures ItemCount(cart) > 0 <==> cart != []
  {
    if cart != [] {
      BadgeMatchesEmptiness(cart[1..]);
    }
  }

  // ---------------------------------------------------------------------
  // Sessions of add requests

  /** One press of an add-to-cart button, with the product id and quantity
      that were read from the page. */
  datatype Request = Request(id: int, quantity: int)

  /** The cart after the requests, in order, starting from the empty cart. */
  function Replay(reqs: seq<Request>): seq<Line> {
    if reqs == [] then []
    else
      var last := reqs[|reqs| - 1];
      AddToCart(Replay(reqs[..|reqs| - 1]), last.id, last.quantity)
  }

  /** The sum of the quantities of the requests for catalog products. */
  function RequestedItems(reqs: seq<Request>): int {
    if reqs == [] then 0
    else
      var last := reqs[|reqs| - 1];
      RequestedItems(reqs[..|reqs| - 1]) + (if last.id in Products() then last.quantity else 0)
  }

  /** The sum of price times quantity of the requests for catalog products. */
  function RequestedPrice(reqs: seq<Request>): int {
    if reqs == [] then 0
    else
      var last := reqs[|reqs| - 1];
      RequestedPrice(reqs[..|reqs| - 1]) +
        (if last.id in Products() then Products()[last.id].price * last.quantity else 0)
  }

  /** The sum of the quantities of the requests for the product `id`. */
  function RequestedQuantity(reqs: seq<Request>, id: int): int {
    if reqs == [] then 0
    else
      var last := reqs[|reqs| - 1];
      RequestedQuantity(reqs[..|reqs| - 1], id) +
        (if last.id == id && id in Products() then last.quantity else 0)
  }

  /** Whatever requests arrive, the cart keeps one line per id, every line
      agrees with the catalog, the item count is the sum of the accepted
      quantities, the total price is the sum of their prices, and each
      product's line holds the sum of the quantities requested for it. */
  lemma {:induction false} ReplayTotals(reqs: seq<Request>, id: int)
    ensures CartInvariant(Replay(reqs))
    ensures ItemCount(Replay(reqs)) == RequestedItems(reqs)
    ensures TotalPrice(Replay(reqs)) == RequestedPrice(reqs)
    ensures QuantityOf(Replay(reqs), id) == RequestedQuantity(reqs, id)
  {
    if reqs != [] {
      var prefix := reqs[..|reqs| - 1];
      var last := reqs[|reqs| - 1];
      ReplayTotals(prefix, id);
      var cart := Replay(prefix);
      if last.id in Products() {
        var line := CatalogLine(last.id, last.quantity);
        AddKeepsDistinct(cart, line);
        AddKeepsCatalog(cart, line);
        AddRaisesTotals(cart, line);
        AddQuantities(cart, line, id);
      }
    }
  }

  /** The worked example: adding product 1 twice, with quantities 2 and 3,
      leaves one line of quantity 5 and a total of 300. */
  lemma TwoAddsOfOneProduct()
    ensures Replay([Request(1, 2), Request(1, 3)]) == [CatalogLine(1, 5)]
    ensures ItemCount(Replay([Request(1, 2), Request(1, 3)])) == 5
    ensures TotalPrice(Replay([Request(1, 2), Request(1, 3)])) == 300
  {
    var reqs := [Request(1, 2), Request(1, 3)];
    assert reqs[..1] == [Request(1, 2)];
    assert [Request(1, 2)][..0] == [];
    var one := Replay([Request(1, 2)]);
    assert one == [CatalogLine(1, 2)];
    assert IndexOf(one, 1) == 0;
  }
}
