/** The `TwoGoApp` object: the cart and the last search results it holds and
    updates in place, and the event handlers that change them. */
module App {
  import opened Catalog
  import opened Cart
  import opened Search

  /** `findIndex` on the cart: the first index whose line has the id, or -1. */
  method FindIndex(cart: seq<Line>, id: int) returns (i: int)
    ensures i == IndexOf(cart, id)
  {
    i := 0;
    while i < |cart|
      invariant 0 <= i <= |cart|
      invariant forall k :: 0 <= k < i ==> cart[k].id != id
    {
      if cart[i].id == id {
        return;
      }
      i := i + 1;
    }
    i := -1;
  }

  /** The effect of a search-box event on the results and on whether the
      results panel is open. */
  function AfterSearchAction(action: SearchAction, results: seq<Hit>, open: bool): (r: (seq<Hit>, bool))
    ensures r.1 <==> action.Run? || (open && action != Hide)
    ensures action.Run? ==> r.0 == SearchQuery(action.query)
    ensures !action.Run? ==> r.0 == results
  {
    match action
    case Hide => (results, false)
    case Run(q) => (SearchQuery(q), true)
    case Ignore => (results, open)
    case AskForTerm => (results, open)
  }

  /** Whether an add-to-cart press went through or was refused with the
      "Product not found" notification. */
  datatype AddStatus = Added | ProductNotFound

  class TwoGoApp {
    var cart: seq<Line>
    var searchResults: seq<Hit>
    /** Whether the search-results panel is shown (its `active` class). */
    var resultsOpen: bool

    ghost predicate Valid()
      reads this
    {
      CartInvariant(cart)
    }

    constructor ()
      ensures Valid()
      ensures cart == [] && searchResults == [] && !resultsOpen
      ensures ItemCount(cart) == 0 && TotalPrice(cart) == 0
    {
      cart := [];
      searchResults := [];
      resultsOpen := false;
    }

    /** `addProductToCart`: merge into the line with the same id or append. */
    method AddProductToCart(line: Line)
      modifies this
      ensures cart == AddLine(old(cart), line)
      ensures searchResults == old(searchResults) && resultsOpen == old(resultsOpen)
    {
      var i := FindIndex(cart, line.id);
      if i >= 0 {
        cart := cart[i := cart[i].(quantity := cart[i].quantity + line.quantity)];
      } else {
        cart := cart + [line];
      }
    }

    /** `handleAddToCart`: an id outside the catalog is refused before the
        cart is touched; otherwise the catalog's name, price and description
        are copied into a line with the requested quantity and added. */
    method HandleAddToCart(productId: int, quantity: int) returns (status: AddStatus)
      requires Valid()
      modifies this
      ensures Valid()
      ensures status == Added <==> productId in Products()
      ensures cart == AddToCart(old(cart), productId, quantity)
      ensures status == Added ==> ItemCount(cart) == old(ItemCount(cart)) + quantity
      ensures status == Added ==>
        TotalPrice(cart) == old(TotalPrice(cart)) + Products()[productId].price * quantity
      ensures searchResults == old(searchResults) && resultsOpen == old(resultsOpen)
    {
      var productData := Lookup(productId);
      if productData.None? {
        return ProductNotFound;
      }
      var p := productData.value;
      var line := Line(productId, p.name, p.price, p.description, quantity);
      AddKeepsDistinct(cart, line);
      AddKeepsCatalog(cart, line);
      AddRaisesTotals(cart, line);
      AddProductToCart(line);
      status := Added;
    }

    /** `removeFromCart`: splice out the line with the id, if there is one;
        `removed` says whether the removal notification is shown. */
    method RemoveFromCart(productId: int) returns (removed: bool)
      modifies this
      ensures removed <==> HasId(old(cart), productId)
      ensures cart == RemoveLine(old(cart), productId)
      ensures old(Valid()) ==> Valid()
      ensures searchResults == old(searchResults) && resultsOpen == old(resultsOpen)
    {
      var itemIndex := FindIndex(cart, productId);
      removed := itemIndex > -1;
      if removed {
        if Valid() {
          RemoveKeepsInvariant(cart, productId);
        }
        cart := cart[..itemIndex] + cart[itemIndex + 1..];
      }
    }

    /** `performSearchQuery`: store the filtered catalog and show the panel. */
    method PerformSearchQuery(query: string)
      modifies this
      ensures searchResults == SearchQuery(query) && resultsOpen
      ensures cart == old(cart)
    {
      searchResults := SearchQuery(query);
      resultsOpen := true;
    }

    /** `hideSearchResults`: close the panel; the stored results stay. */
    method HideSearchResults()
      modifies this
      ensures !resultsOpen
      ensures cart == old(cart) && searchResults == old(searchResults)
    {
      resultsOpen := false;
    }

    method ApplySearchAction(action: SearchAction)
      modifies this
      ensures (searchResults, resultsOpen) ==
        AfterSearchAction(action, old(searchResults), old(resultsOpen))
      ensures cart == old(cart)
    {
      match action
      case Hide => HideSearchResults();
      case Run(q) => PerformSearchQuery(q);
      case Ignore =>
      case AskForTerm =>
    }

    /** `handleSearchInput`, with the debounced search run at once. */
    method HandleSearchInput(value: string)
      modifies this
      ensures (searchResults, resultsOpen) ==
        AfterSearchAction(OnInput(value), old(searchResults), old(resultsOpen))
      ensures cart == old(cart)
    {
      ApplySearchAction(OnInput(value));
    }

    /** `handleSearchFocus`. */
    method HandleSearchFocus(value: string)
      modifies this
      ensures (searchResults, resultsOpen) ==
        AfterSearchAction(OnFocus(value), old(searchResults), old(resultsOpen))
      ensures cart == old(cart)
    {
      ApplySearchAction(OnFocus(value));
    }

    /** `performSearch`, run by the search button; `asked` says whether the
        "Please enter a search term" warning is shown instead. */
    method PerformSearch(value: string) returns (asked: bool)
      modifies this
      ensures asked <==> Normalize(value) == []
      ensures (searchResults, resultsOpen) ==
        AfterSearchAction(OnSubmit(value), old(searchResults), old(resultsOpen))
      ensures cart == old(cart)
    {
      var action := OnSubmit(value);
      asked := action == AskForTerm;
      ApplySearchAction(action);
    }

    /** `handleSearchKeydown`. */
    method HandleSearchKeydown(key: Key, value: string)
      modifies this
      ensures (searchResults, resultsOpen) ==
        AfterSearchAction(OnKeydown(key, value), old(searchResults), old(resultsOpen))
      ensures cart == old(cart)
    {
      ApplySearchAction(OnKeydown(key, value));
    }
  }

  /** A session that adds product 1 twice and then an unknown id: one line of
      quantity 5, a total of 300, and the unknown id leaves the cart alone. */
  method ExampleSession()
  {
    var app := new TwoGoApp();
    var s1 := app.HandleAddToCart(1, 2);
    var s2 := app.HandleAddToCart(1, 3);
    var s3 := app.HandleAddToCart(999, 1);
    assert s1 == Added && s2 == Added && s3 == ProductNotFound;
    assert ItemCount(app.cart) == 5;
    assert TotalPrice(app.cart) == 300;
    assert |app.cart| == 1 by {
      assert IndexOf([CatalogLine(1, 2)], 1) == 0;
    }
    var removed := app.RemoveFromCart(1);
    assert removed;
    assert app.cart == [];
    var again := app.RemoveFromCart(1);
    assert !again && app.cart == [];
  }
}
