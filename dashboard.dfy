/** The dashboard page of `frontend/app/dashboard/page.tsx` as a state
  * machine. Its React state is the fields of `DashboardPage`; the filter
  * effect, which recomputes `filteredProducts` whenever what it depends on
  * changes, is the invariant `Valid()`; each handler is one method that
  * runs to completion, with the server's replies to its requests as
  * parameters. */
module Dashboard {
  import opened Wrappers
  import opened Exceptions
  import opened Types
  import Json
  import B = Browser
  import TS = TokenSession
  import C = Catalog
  import opened Http
  import AF = AuthFetch

  // ------------------------------------------------ outcomes of the handlers

  /** `Promise.all([getProducts(), getUserProducts()])`: both calls read the
    * session before either reply is handled, and the page gets both lists
    * or neither. */
  function Loaded(storage: map<string, string>, all: Reply<seq<Product>>, mine: Reply<seq<Product>>)
    : (r: Option<(seq<Product>, seq<Product>)>)
    ensures r.Some? <==> AF.Prepare(true, storage).Ok? && all.Success? && mine.Success?
    ensures r.Some? ==> r.value.0 == all.payload && r.value.1 == mine.payload
  {
    var a := AF.Outcome(true, storage, all);
    var m := AF.Outcome(true, storage, mine);
    if a.Ok? && m.Ok? then Some((a.value, m.value)) else None
  }

  /** The store after the initial load: each 401 among the two replies
    * clears the session. */
  function LoadedStorage(storage: map<string, string>, all: Reply<seq<Product>>, mine: Reply<seq<Product>>)
    : map<string, string>
  {
    if AF.Prepare(true, storage).Ok? then AF.Settled(AF.Settled(storage, all), mine) else storage
  }

  /** The product the detail dialog opens on: the fetched one, or else the
    * first product of that id in the list already loaded; None when it
    * opens on nothing. */
  function Shown(storage: map<string, string>, products: seq<Product>, productId: int, reply: Reply<Product>)
    : (r: Option<Product>)
    ensures AF.Prepare(true, storage).Ok? && reply.Success? ==> r == Some(reply.payload)
    ensures !(AF.Prepare(true, storage).Ok? && reply.Success?) ==> r == C.FindById(products, productId)
  {
    match AF.Outcome(true, storage, reply)
    case Ok(p) => Some(p)
    case Err(_) => C.FindById(products, productId)
  }

  /** The user's list after assigning or unassigning: the refetched list,
    * when the action and the refetch both succeed; otherwise None. The
    * refetch is only sent after the action succeeded. */
  function Refreshed(storage: map<string, string>, action: Reply<Json.Value>, refetch: Reply<seq<Product>>)
    : Option<seq<Product>>
  {
    match AF.Outcome(true, storage, action)
    case Err(_) => None
    case Ok(_) =>
      match AF.Outcome(true, AF.AfterCall(true, storage, action), refetch)
      case Err(_) => None
      case Ok(ps) => Some(ps)
  }

  /** The store after assigning or unassigning. */
  function ActedStorage(storage: map<string, string>, action: Reply<Json.Value>, refetch: Reply<seq<Product>>)
    : map<string, string>
  {
    var afterAction := AF.AfterCall(true, storage, action);
    if AF.Outcome(true, storage, action).Ok? then AF.AfterCall(true, afterAction, refetch) else afterAction
  }

  /** The pages visited while assigning or unassigning. */
  function ActedPath(storage: map<string, string>, action: Reply<Json.Value>, refetch: Reply<seq<Product>>)
    : seq<string>
  {
    var afterAction := AF.AfterCall(true, storage, action);
    AF.CallPath(true, storage, action)
      + (if AF.Outcome(true, storage, action).Ok? then AF.CallPath(true, afterAction, refetch) else [])
  }

  // ------------------------------------------------------ their properties

  /** The user's list is replaced exactly when a session was there and both
    * the action and the refetch succeeded, and then by the refetched list. */
  lemma RefreshedIff(storage: map<string, string>, action: Reply<Json.Value>, refetch: Reply<seq<Product>>)
    ensures Refreshed(storage, action, refetch).Some?
        <==> AF.Prepare(true, storage).Ok? && action.Success? && refetch.Success?
    ensures Refreshed(storage, action, refetch).Some? ==> Refreshed(storage, action, refetch).value == refetch.payload
  {
    if AF.Outcome(true, storage, action).Ok? {
      AF.AnsweredCallKeepsSession(true, storage, action);
    }
  }

  /** A failed action sends no refetch: the store and the pages visited
    * depend on the action's reply alone. */
  lemma FailedActionSkipsRefetch(storage: map<string, string>, action: Reply<Json.Value>,
                                 refetch: Reply<seq<Product>>, other: Reply<seq<Product>>)
    requires !action.Success?
    ensures Refreshed(storage, action, refetch) == None
    ensures ActedStorage(storage, action, refetch) == ActedStorage(storage, action, other)
    ensures ActedPath(storage, action, refetch) == ActedPath(storage, action, other)
  {
  }

  /** A rejected action whose status is 401 ends the session and opens the
    * login page once; a refetch that gets a 401 does the same. */
  lemma ExpiryDuringAction(storage: map<string, string>, action: Reply<Json.Value>, refetch: Reply<seq<Product>>)
    requires AF.Prepare(true, storage).Ok?
    ensures AF.Expires(action) ==>
              ActedStorage(storage, action, refetch) == TS.Cleared(storage) && ActedPath(storage, action, refetch) == [AF.LoginPath]
    ensures action.Success? && AF.Expires(refetch) ==>
              ActedStorage(storage, action, refetch) == TS.Cleared(storage) && ActedPath(storage, action, refetch) == [AF.LoginPath]
  {
    if action.Success? {
      AF.AnsweredCallKeepsSession(true, storage, action);
      assert AF.CallPath(true, storage, action) == [];
    }
  }

  /** When the product cannot be fetched, the dialog opens on the first
    * product of that id already loaded, if there is one, and on nothing
    * otherwise. */
  lemma ShownFallback(storage: map<string, string>, products: seq<Product>, productId: int, reply: Reply<Product>)
    requires AF.Outcome(true, storage, reply).Err?
    ensures Shown(storage, products, productId, reply).Some? <==> exists p :: p in products && p.id == productId
    ensures Shown(storage, products, productId, reply).Some? ==>
              Shown(storage, products, productId, reply).value.id == productId
              && Shown(storage, products, productId, reply).value in products
  {
  }

  /** Both lists arrive exactly when the session was there and both replies
    * succeeded; a 401 on either ends the session. */
  lemma LoadedIff(storage: map<string, string>, all: Reply<seq<Product>>, mine: Reply<seq<Product>>)
    requires AF.Prepare(true, storage).Ok?
    ensures Loaded(storage, all, mine) == (if all.Success? && mine.Success? then Some((all.payload, mine.payload)) else None)
    ensures AF.Expires(all) || AF.Expires(mine) ==> LoadedStorage(storage, all, mine) == TS.Cleared(storage)
    ensures !AF.Expires(all) && !AF.Expires(mine) ==> LoadedStorage(storage, all, mine) == storage
  {
    if AF.Expires(all) && AF.Expires(mine) {
      TS.ClearIdempotent(storage);
    }
  }

  // ---------------------------------------------------------------- the page

  class DashboardPage {
    /** The browser the page runs in; its effects and handlers only run
      * where there is a window. */
    const browser: B.Browser
    var products: seq<Product>
    var myProducts: seq<Product>
    var filteredProducts: seq<Product>
    var selectedProduct: Option<Product>
    var isDetailLoading: bool
    var isLoading: bool
    var isActionLoading: bool
    var searchTerm: string
    var selectedCategory: Option<string>
    var activeTab: string
    var isDialogOpen: bool

    /** The filter effect has run on the current state. */
    predicate Valid()
      reads this
    {
      && browser.hasWindow
      && filteredProducts == C.View(products, myProducts, activeTab, searchTerm, selectedCategory)
    }

    /** The first render: every `useState` initial value. */
    constructor (browser: B.Browser)
      requires browser.hasWindow
      ensures Valid()
      ensures this.browser == browser
      ensures products == [] && myProducts == [] && filteredProducts == [] && selectedProduct == None
      ensures !isDetailLoading && isLoading && !isActionLoading
      ensures searchTerm == "" && selectedCategory == None && activeTab == "all" && !isDialogOpen
    {
      this.browser := browser;
      products := [];
      myProducts := [];
      filteredProducts := [];
      selectedProduct := None;
      isDetailLoading := false;
      isLoading := true;
      isActionLoading := false;
      searchTerm := "";
      selectedCategory := None;
      activeTab := "all";
      isDialogOpen := false;
    }

    /** The filter effect. */
    method Refilter()
      modifies this`filteredProducts
      ensures filteredProducts == C.View(products, myProducts, activeTab, searchTerm, selectedCategory)
    {
      var source := C.SourceFor(activeTab, products, myProducts);
      var result := C.SearchFilter(source, searchTerm);
      result := C.CategoryFilter(result, selectedCategory);
      filteredProducts := result;
    }

    /** `categories`: the categories of all products, once each, never of
      * the user's list. */
    function Categories(): (r: seq<string>)
      reads this
      ensures C.NoDuplicates(r)
      ensures forall c :: c in r <==> exists p :: p in products && p.dataCategory == c
    {
      C.Categories(products)
    }

    /** `isProductAssigned(productId)`. */
    function IsProductAssigned(productId: int): (r: bool)
      reads this
      ensures r <==> exists p :: p in myProducts && p.id == productId
    {
      C.IsAssigned(myProducts, productId)
    }

    /** The mount effect: without a session go to the login page; with one,
      * load both lists. A stored user text that does not parse makes the
      * effect throw before anything happens; that error is `thrown`. */
    method Mount(all: Reply<seq<Product>>, mine: Reply<seq<Product>>) returns (thrown: Option<JsError>)
      requires Valid()
      modifies this, browser
      ensures Valid()
      ensures var session := TS.DashboardGetSession(true, old(browser.storage));
        && (session.Err? ==> thrown == Some(session.error) && unchanged(this, browser))
        && (session == Ok(None) ==>
              thrown == None && unchanged(this) && browser.storage == old(browser.storage)
              && browser.navigations == old(browser.navigations) + [AF.LoginPath])
        && (session.Ok? && session.value.Some? ==>
              && thrown == None
              && !isLoading
              && var loaded := Loaded(old(browser.storage), all, mine);
              && (loaded.Some? ==> products == loaded.value.0 && myProducts == loaded.value.1)
              && (loaded.None? ==> products == old(products) && myProducts == old(myProducts))
              && selectedProduct == old(selectedProduct) && isDialogOpen == old(isDialogOpen)
              && isDetailLoading == old(isDetailLoading) && isActionLoading == old(isActionLoading)
              && searchTerm == old(searchTerm) && selectedCategory == old(selectedCategory)
              && activeTab == old(activeTab)
              && browser.storage == LoadedStorage(old(browser.storage), all, mine)
              && browser.navigations == old(browser.navigations) + AF.SettledPath(all) + AF.SettledPath(mine))
    {
      var session := TS.DashboardGetSession(browser.hasWindow, browser.storage);
      if session.Err? {
        return Some(session.error);
      }
      if session.value.None? {
        browser.Navigate(AF.LoginPath);
        return None;
      }
      thrown := None;
      isLoading := true;
      var s := browser.storage;
      var a := AF.Prepare(browser.hasWindow, browser.storage);
      var m := AF.Prepare(browser.hasWindow, browser.storage);
      var allData := AF.Settle(browser, all);
      var mineData := AF.Settle(browser, mine);
      if a.Ok? && m.Ok? && allData.Ok? && mineData.Ok? {
        products := allData.value;
        myProducts := mineData.value;
        filteredProducts := C.SourceFor("all", allData.value, mineData.value);
      }
      Refilter();
      isLoading := false;
      assert browser.navigations == old(browser.navigations) + AF.SettledPath(all) + AF.SettledPath(mine);
    }

    /** `handleViewProduct`: fetch the product and open the dialog on it;
      * when the fetch fails, fall back to the loaded list. */
    method HandleViewProduct(productId: int, reply: Reply<Product>)
      requires Valid()
      modifies this`selectedProduct, this`isDetailLoading, this`isDialogOpen, browser
      ensures Valid()
      ensures var shown := Shown(old(browser.storage), products, productId, reply);
        && selectedProduct == (if shown.Some? then shown else old(selectedProduct))
        && isDialogOpen == (shown.Some? || old(isDialogOpen))
        && !isDetailLoading
      ensures browser.storage == AF.AfterCall(true, old(browser.storage), reply)
      ensures browser.navigations == old(browser.navigations) + AF.CallPath(true, old(browser.storage), reply)
    {
      isDetailLoading := true;
      var product := AF.Call(browser, reply);
      if product.Ok? {
        selectedProduct := Some(product.value);
        isDialogOpen := true;
      } else {
        var cached := C.FindById(products, productId);
        if cached.Some? {
          selectedProduct := cached;
          isDialogOpen := true;
        }
      }
      isDetailLoading := false;
    }

    /** What `handleAssignProduct` and `handleUnassignProduct` share: send
      * the action, then refetch the user's list. */
    method Act(action: Reply<Json.Value>, refetch: Reply<seq<Product>>)
      requires Valid()
      modifies this`myProducts, this`isActionLoading, this`filteredProducts, browser
      ensures Valid()
      ensures var refreshed := Refreshed(old(browser.storage), action, refetch);
        myProducts == (if refreshed.Some? then refreshed.value else old(myProducts))
      ensures !isActionLoading
      ensures browser.storage == ActedStorage(old(browser.storage), action, refetch)
      ensures browser.navigations == old(browser.navigations) + ActedPath(old(browser.storage), action, refetch)
    {
      isActionLoading := true;
      var done := AF.Call(browser, action);
      ghost var afterAction := browser.storage;
      if done.Ok? {
        var updated := AF.Call(browser, refetch);
        if updated.Ok? {
          myProducts := updated.value;
          Refilter();
        }
      } else {
        assert browser.navigations == old(browser.navigations) + ActedPath(old(browser.storage), action, refetch);
      }
      isActionLoading := false;
    }

    /** `handleAssignProduct(productId)`. The request naming the product is
      * not modelled; `action` is the server's reply to it. */
    method HandleAssignProduct(productId: int, action: Reply<Json.Value>, refetch: Reply<seq<Product>>)
      requires Valid()
      modifies this`myProducts, this`isActionLoading, this`filteredProducts, browser
      ensures Valid()
      ensures var refreshed := Refreshed(old(browser.storage), action, refetch);
        myProducts == (if refreshed.Some? then refreshed.value else old(myProducts))
      ensures !isActionLoading
      ensures browser.storage == ActedStorage(old(browser.storage), action, refetch)
      ensures browser.navigations == old(browser.navigations) + ActedPath(old(browser.storage), action, refetch)
    {
      Act(action, refetch);
    }

    /** `handleUnassignProduct(productId)`, likewise. */
    method HandleUnassignProduct(productId: int, action: Reply<Json.Value>, refetch: Reply<seq<Product>>)
      requires Valid()
      modifies this`myProducts, this`isActionLoading, this`filteredProducts, browser
      ensures Valid()
      ensures var refreshed := Refreshed(old(browser.storage), action, refetch);
        myProducts == (if refreshed.Some? then refreshed.value else old(myProducts))
      ensures !isActionLoading
      ensures browser.storage == ActedStorage(old(browser.storage), action, refetch)
      ensures browser.navigations == old(browser.navigations) + ActedPath(old(browser.storage), action, refetch)
    {
      Act(action, refetch);
    }

    /** `handleSearch(term)`. */
    method HandleSearch(term: string)
      requires Valid()
      modifies this`searchTerm, this`filteredProducts
      ensures Valid() && searchTerm == term
    {
      searchTerm := term;
      Refilter();
    }

    /** `handleCategoryFilter(category)`. */
    method HandleCategoryFilter(category: Option<string>)
      requires Valid()
      modifies this`selectedCategory, this`filteredProducts
      ensures Valid() && selectedCategory == category
    {
      selectedCategory := category;
      Refilter();
    }

    /** `handleTabChange(value)`. */
    method HandleTabChange(value: string)
      requires Valid()
      modifies this`activeTab, this`filteredProducts
      ensures Valid() && activeTab == value
    {
      activeTab := value;
      Refilter();
    }

    /** The dialog's `onClose`. */
    method CloseDialog()
      requires Valid()
      modifies this`isDialogOpen
      ensures Valid() && !isDialogOpen
    {
      isDialogOpen := false;
    }

    /** `logout()`: clear the session and go to the login page. */
    method Logout()
      requires Valid()
      modifies browser
      ensures browser.storage == TS.Cleared(old(browser.storage))
      ensures browser.navigations == old(browser.navigations) + [AF.LoginPath]
    {
      TS.ClearSession(browser);
      browser.Navigate(AF.LoginPath);
    }
  }
}
