/** `frontend/lib/api.ts`: a stand-in for the server over constant tables.
  * Every call first waits a fixed time, which is not modelled; the two
  * product calls then check the `lib/auth` session. */
module MockApi {
  import opened Wrappers
  import opened Exceptions
  import opened Types
  import Json
  import Auth
  import C = Catalog

  const DemoEmail := "demo@example.com"
  const DemoPassword := "password"
  const MockToken := "mock-jwt-token"
  const InvalidCredentials := "Invalid credentials"
  const NotAuthenticated := "Not authenticated"
  const ProductNotFound := "Product not found"

  /** `mockProducts`. */
  const MockProducts: seq<Product> := [
    Product(1, "Company Database", "Firmographic", 5250,
      ["Company name", "Company address", "Website", "Industry", "Employee count", "Revenue"],
      Some("Comprehensive database of company information including basic details and key metrics.")),
    Product(2, "Contact Information", "Contact", 12500,
      ["Full name", "Email", "Phone number", "Job title", "Department"],
      Some("Database of business contacts with complete professional information.")),
    Product(3, "Financial Metrics", "Financial", 3800,
      ["Annual revenue", "Profit margin", "Growth rate", "Funding rounds", "Investors"],
      Some("Detailed financial information for public and private companies.")),
    Product(4, "Technology Stack", "Technographic", 4200,
      ["Technologies used", "Software vendors", "IT spending", "Cloud services"],
      Some("Information about the technologies and software companies are using.")),
    Product(5, "Industry Trends", "Market Intelligence", 1800,
      ["Market size", "Growth projections", "Competitive landscape", "Market share"],
      Some("Market research data organized by industry vertical.")),
    Product(6, "Social Media Presence", "Digital", 7500,
      ["Social profiles", "Follower count", "Engagement metrics", "Content strategy"],
      Some("Analysis of company social media presence and digital footprint."))
  ]

  /** `mockUsers`. */
  const MockUsers: seq<User> := [User(1, DemoEmail, "Demo User")]

  /** What `login` resolves to. */
  datatype LoginData = LoginData(token: string, user: User)

  /** `login(email, password)`: one fixed account. */
  function Login(email: string, password: string): (r: Result<LoginData, JsError>)
    ensures r.Ok? <==> email == DemoEmail && password == DemoPassword
    ensures r.Ok? ==> r.value == LoginData(MockToken, MockUsers[0])
    ensures r.Err? ==> r.error == Error(InvalidCredentials)
  {
    if email == DemoEmail && password == DemoPassword then Ok(LoginData(MockToken, MockUsers[0]))
    else Err(Error(InvalidCredentials))
  }

  /** `if (!session)` on what `lib/auth`'s `getSession()` returns. */
  predicate SignedIn(hasWindow: bool, storage: map<string, string>) {
    Json.Truthy(Auth.GetSession(hasWindow, storage))
  }

  /** `getProducts()`. */
  function GetProducts(hasWindow: bool, storage: map<string, string>): (r: Result<seq<Product>, JsError>)
    ensures r.Ok? <==> SignedIn(hasWindow, storage)
    ensures r.Ok? ==> r.value == MockProducts
    ensures r.Err? ==> r.error == Error(NotAuthenticated)
  {
    if !SignedIn(hasWindow, storage) then Err(Error(NotAuthenticated)) else Ok(MockProducts)
  }

  /** `getProductById(id)`: the session is checked before the lookup. */
  function GetProductById(hasWindow: bool, storage: map<string, string>, id: int): (r: Result<Product, JsError>)
    ensures r.Ok? <==> SignedIn(hasWindow, storage) && exists p :: p in MockProducts && p.id == id
    ensures r.Ok? ==> r.value in MockProducts && r.value.id == id
    ensures !SignedIn(hasWindow, storage) ==> r == Err(Error(NotAuthenticated))
    ensures SignedIn(hasWindow, storage) && r.Err? ==> r.error == Error(ProductNotFound)
  {
    if !SignedIn(hasWindow, storage) then Err(Error(NotAuthenticated))
    else
      match C.FindById(MockProducts, id)
      case None => Err(Error(ProductNotFound))
      case Some(p) => Ok(p)
  }

  // ------------------------------------------------------------ properties

  /** The ids of `mockProducts` are 1 to 6, each once. */
  lemma UniqueIds()
    ensures forall i :: 0 <= i < |MockProducts| ==> MockProducts[i].id == i + 1
    ensures forall i, j :: 0 <= i < |MockProducts| && 0 <= j < |MockProducts| && MockProducts[i].id == MockProducts[j].id ==> i == j
  {
  }

  /** With a session, `getProductById(id)` returns the one product of that
    * id, for every id in the table, and fails for every other id. */
  lemma LookupIsExact(hasWindow: bool, storage: map<string, string>, id: int)
    requires SignedIn(hasWindow, storage)
    ensures 1 <= id <= 6 ==> GetProductById(hasWindow, storage, id) == Ok(MockProducts[id - 1])
    ensures !(1 <= id <= 6) ==> GetProductById(hasWindow, storage, id) == Err(Error(ProductNotFound))
  {
    UniqueIds();
    if 1 <= id <= 6 {
      var r := GetProductById(hasWindow, storage, id);
      assert MockProducts[id - 1] in MockProducts;
      var k :| 0 <= k < |MockProducts| && MockProducts[k] == r.value;
      assert k == id - 1;
    } else {
      forall p | p in MockProducts
        ensures p.id != id
      {
        var k :| 0 <= k < |MockProducts| && MockProducts[k] == p;
      }
    }
  }

  /** Signing in with the demo account and storing its answer with
    * `lib/auth`'s `setSession` gives access to the products. */
  lemma DemoSignInGivesAccess(storage: map<string, string>, id: int)
    ensures var data := Login(DemoEmail, DemoPassword).value;
      var signedIn := Auth.Stored(true, storage, data.token, data.user);
      GetProducts(true, signedIn) == Ok(MockProducts)
  {
    Auth.GetAfterSet(storage, MockToken, MockUsers[0]);
  }

  /** After `clearSession()`, or without a window, even an id in the table
    * is refused as unauthenticated. */
  lemma SignedOutIsRefused(storage: map<string, string>, id: int)
    ensures GetProductById(true, Auth.Cleared(true, storage), id) == Err(Error(NotAuthenticated))
    ensures GetProductById(false, storage, id) == Err(Error(NotAuthenticated))
  {
    Auth.GetAfterClear(true, storage);
  }
}
