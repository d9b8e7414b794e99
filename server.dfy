/** The FastAPI server of `backend/server.py` over its SQLite database,
  * modelled as one object: the `users` table keyed by username, the
  * `products` table as its rows in table order, and the `user_products`
  * junction table as a set of `(user_id, product_id)` pairs. bcrypt and JWT
  * are not modelled: checking a password is the parameter `verify`, and a
  * request's bearer token is given as the username it decodes to, or None
  * when it does not decode. */
module Server {
  import opened Wrappers
  import Json
  import Types

  /** A row of `users`. */
  datatype UserRow = UserRow(id: int, email: Option<string>, fullName: Option<string>,
                             hashedPassword: string, disabled: bool)

  /** A row of `products`: `fields` is stored as JSON text. */
  datatype ProductRow = ProductRow(id: int, name: string, dataCategory: string, recordCount: int,
                                   fieldsText: string, description: string)

  /** The `User` response model: the user without the password hash. */
  datatype PublicUser = PublicUser(username: string, email: Option<string>, fullName: Option<string>, disabled: bool)

  /** An `HTTPException`, or the 500 that an exception escaping a route
    * becomes. */
  datatype HttpError = HttpError(status: int, detail: string)

  const CouldNotValidate := HttpError(401, "Could not validate credentials")
  const InactiveUser := HttpError(400, "Inactive user")
  const AlreadyRegistered := HttpError(400, "Username already registered")
  const IncorrectLogin := HttpError(401, "Incorrect username or password")
  const UserNotFound := HttpError(404, "User not found")
  const ProductNotFound := HttpError(404, "Product not found")
  const NotAssigned := HttpError(404, "Product not assigned to user or doesn't exist")
  const InternalError := HttpError(500, "Internal Server Error")
  const AlreadyAssigned := "This product is already assigned to the user"

  function Public(username: string, row: UserRow): PublicUser {
    PublicUser(username, row.email, row.fullName, row.disabled)
  }

  // ---------------------------------------------------- identifying a caller

  /** `authenticate_user`: the user's row when the name is known and the
    * password verifies against its hash; None (`False`) otherwise. */
  function Authenticate(users: map<string, UserRow>, username: string, password: string,
                        verify: (string, string) -> bool): (r: Option<UserRow>)
    ensures r.Some? <==> username in users && verify(password, users[username].hashedPassword)
    ensures r.Some? ==> r.value == users[username]
  {
    if username !in users then None
    else if !verify(password, users[username].hashedPassword) then None
    else Some(users[username])
  }

  /** `login_for_access_token`: the username the issued token names. */
  function IssueToken(users: map<string, UserRow>, username: string, password: string,
                      verify: (string, string) -> bool): (r: Result<string, HttpError>)
    ensures r.Ok? <==> Authenticate(users, username, password, verify).Some?
    ensures r.Ok? ==> r.value == username
    ensures r.Err? ==> r.error == IncorrectLogin
  {
    if Authenticate(users, username, password, verify).None? then Err(IncorrectLogin) else Ok(username)
  }

  /** `get_current_user`, then `get_current_active_user`: a token that does
    * not decode, or names no user, is refused with 401; a disabled user with
    * 400. */
  function CurrentActiveUser(users: map<string, UserRow>, subject: Option<string>): (r: Result<string, HttpError>)
    ensures r.Ok? <==> subject.Some? && subject.value in users && !users[subject.value].disabled
    ensures r.Ok? ==> r.value == subject.value
    ensures r.Err? ==> r.error == CouldNotValidate || r.error == InactiveUser
    ensures r == Err(InactiveUser) <==> subject.Some? && subject.value in users && users[subject.value].disabled
  {
    if subject.None? || subject.value !in users then Err(CouldNotValidate)
    else if users[subject.value].disabled then Err(InactiveUser)
    else Ok(subject.value)
  }

  /** A token issued for a user who is not disabled identifies that user. */
  lemma IssuedTokenIdentifies(users: map<string, UserRow>, username: string, password: string,
                              verify: (string, string) -> bool)
    requires IssueToken(users, username, password, verify).Ok?
    ensures !users[username].disabled ==>
              CurrentActiveUser(users, Some(IssueToken(users, username, password, verify).value)) == Ok(username)
    ensures users[username].disabled ==>
              CurrentActiveUser(users, Some(IssueToken(users, username, password, verify).value)) == Err(InactiveUser)
  {
  }

  // ------------------------------------------------------- stored products

  /** The stored form of a field list: its compact JSON text, with no
    * space after the commas that `json.dumps` would write. */
  function EncodeFields(fields: seq<string>): string {
    Json.Serialize(Json.JArr(seq(|fields|, i requires 0 <= i < |fields| => Json.JStr(fields[i]))))
  }

  /** `json.loads(text)` where a list of strings is what the response model
    * accepts; None where either refuses it. */
  function DecodeFields(text: string): (r: Option<seq<string>>)
    ensures r.Some? ==> exists items :: Json.Parse(text) == Some(Json.JArr(items)) && |items| == |r.value|
  {
    match Json.Parse(text)
    case Some(JArr(items)) =>
      if forall i :: 0 <= i < |items| ==> items[i].JStr?
      then Some(seq(|items|, i requires 0 <= i < |items| && items[i].JStr? => items[i].s))
      else None
    case _ => None
  }

  /** The stored text of a field list reads back as that list. */
  lemma FieldsRoundTrip(fields: seq<string>)
    ensures DecodeFields(EncodeFields(fields)) == Some(fields)
  {
    var items := seq(|fields|, i requires 0 <= i < |fields| => Json.JStr(fields[i]));
    Json.ParseSerialize(Json.JArr(items));
    assert seq(|items|, i requires 0 <= i < |items| && items[i].JStr? => items[i].s) == fields;
  }

  /** The `Product` response for a row; None when its fields do not decode. */
  function Decoded(row: ProductRow): (r: Option<Types.Product>)
    ensures r.Some? ==> r.value.id == row.id && r.value.name == row.name && r.value.dataCategory == row.dataCategory
    ensures r.Some? <==> DecodeFields(row.fieldsText).Some?
  {
    match DecodeFields(row.fieldsText)
    case None => None
    case Some(fields) =>
      Some(Types.Product(row.id, row.name, row.dataCategory, row.recordCount, fields, Some(row.description)))
  }

  /** The row a product decodes from: the stored form of the product. */
  function RowOf(p: Types.Product, description: string): ProductRow {
    ProductRow(p.id, p.name, p.dataCategory, p.recordCount, EncodeFields(p.fields), description)
  }

  /** A product stored with its description reads back unchanged. */
  lemma StoredProductReadsBack(p: Types.Product, description: string)
    requires p.description == Some(description)
    ensures Decoded(RowOf(p, description)) == Some(p)
  {
    FieldsRoundTrip(p.fields);
  }

  /** The response list built from the rows that `keep` selects, in table
    * order; None when one of them does not decode. */
  function Listed(rows: seq<ProductRow>, keep: ProductRow -> bool): (r: Option<seq<Types.Product>>)
    ensures r.Some? ==> |r.value| <= |rows|
  {
    if rows == [] then Some([])
    else
      var last := rows[|rows| - 1];
      match Listed(rows[..|rows| - 1], keep)
      case None => None
      case Some(ps) =>
        if !keep(last) then Some(ps)
        else
          match Decoded(last)
          case None => None
          case Some(p) => Some(ps + [p])
  }

  /** A listed product comes from a selected row of the same id, and every
    * selected row is listed. */
  lemma {:induction false} ListedMembers(rows: seq<ProductRow>, keep: ProductRow -> bool)
    requires Listed(rows, keep).Some?
    ensures forall p :: p in Listed(rows, keep).value <==> exists row :: row in rows && keep(row) && Decoded(row) == Some(p)
  {
    if rows != [] {
      var init := rows[..|rows| - 1];
      ListedMembers(init, keep);
      assert rows == init + [rows[|rows| - 1]];
    }
  }

  /** The product of a given id, as `get_product_by_id` looks it up. */
  function RowById(rows: seq<ProductRow>, id: int): (r: Option<ProductRow>)
    ensures r.Some? <==> exists row :: row in rows && row.id == id
    ensures r.Some? ==> r.value in rows && r.value.id == id
  {
    if rows == [] then None
    else if rows[0].id == id then Some(rows[0])
    else RowById(rows[1..], id)
  }

  /** No two rows share an id, as the `products` primary key keeps it. */
  predicate UniqueIds(rows: seq<ProductRow>) {
    forall i, j :: 0 <= i < j < |rows| ==> rows[i].id != rows[j].id
  }

  /** With unique ids, the lookup finds the one row of that id. */
  lemma {:induction false} RowByIdFindsRow(rows: seq<ProductRow>, row: ProductRow)
    requires UniqueIds(rows) && row in rows
    ensures RowById(rows, row.id) == Some(row)
  {
    if rows[0] != row {
      assert rows[0].id != row.id by {
        var k :| 0 <= k < |rows| && rows[k] == row;
        assert k != 0;
      }
      assert row in rows[1..];
      assert UniqueIds(rows[1..]) by {
        forall i, j | 0 <= i < j < |rows[1..]|
          ensures rows[1..][i].id != rows[1..][j].id
        {
          assert rows[1..][i] == rows[i + 1] && rows[1..][j] == rows[j + 1];
        }
      }
      RowByIdFindsRow(rows[1..], row);
    }
  }

  /** Every row of that id is the one the lookup finds, once ids are unique. */
  lemma RowByIdIsTheRow(rows: seq<ProductRow>, id: int)
    ensures UniqueIds(rows) ==> forall row :: row in rows && row.id == id ==> RowById(rows, id) == Some(row)
  {
    if UniqueIds(rows) {
      forall row | row in rows && row.id == id
        ensures RowById(rows, id) == Some(row)
      {
        RowByIdFindsRow(rows, row);
      }
    }
  }

  // ----------------------------------------------------- the assignment routes

  /** The rows whose product is paired with `userId`. */
  function PairedWith(pairs: set<(int, int)>, userId: int): ProductRow -> bool {
    (row: ProductRow) => (userId, row.id) in pairs
  }

  /** `assign_product` once the caller is known: its answer and the
    * junction table after it. `INSERT OR IGNORE` leaves a recorded pair as
    * it is. */
  function Assigned(users: map<string, UserRow>, rows: seq<ProductRow>, pairs: set<(int, int)>,
                    username: string, productId: int): (Result<string, HttpError>, set<(int, int)>)
  {
    if username !in users then (Err(UserNotFound), pairs)
    else if RowById(rows, productId).None? then (Err(ProductNotFound), pairs)
    else
      var pair := (users[username].id, productId);
      if pair in pairs then (Ok(AlreadyAssigned), pairs)
      else (Ok("Product " + Json.NumberText(productId) + " assigned to user successfully"), pairs + {pair})
  }

  /** `unassign_product` once the caller is known. */
  function Unassigned(users: map<string, UserRow>, pairs: set<(int, int)>, username: string, productId: int)
    : (Result<string, HttpError>, set<(int, int)>)
  {
    if username !in users then (Err(UserNotFound), pairs)
    else
      var pair := (users[username].id, productId);
      if pair !in pairs then (Err(NotAssigned), pairs)
      else (Ok("Product " + Json.NumberText(productId) + " unassigned from user successfully"), pairs - {pair})
  }

  /** Assigning adds exactly the caller's pair when the product exists, and
    * changes nothing when it fails. */
  lemma AssignAddsPair(users: map<string, UserRow>, rows: seq<ProductRow>, pairs: set<(int, int)>,
                       username: string, productId: int)
    ensures var (r, after) := Assigned(users, rows, pairs, username, productId);
      && (r.Err? ==> after == pairs)
      && (r.Err? <==> username !in users || forall row :: row in rows ==> row.id != productId)
      && (r.Ok? ==> after == pairs + {(users[username].id, productId)})
      && (r == Ok(AlreadyAssigned) <==> r.Ok? && (users[username].id, productId) in pairs)
  {
    if username in users && RowById(rows, productId).Some? {
      AssignedMessage(productId);
    }
  }

  /** The success message is never mistaken for the "already assigned" one. */
  lemma AssignedMessage(productId: int)
    ensures "Product " + Json.NumberText(productId) + " assigned to user successfully" != AlreadyAssigned
  {
    var m := "Product " + Json.NumberText(productId) + " assigned to user successfully";
    assert m[0] == 'P' && AlreadyAssigned[0] == 'T';
  }

  /** Assigning twice is assigning once; the second answer is "already
    * assigned". */
  lemma AssignIdempotent(users: map<string, UserRow>, rows: seq<ProductRow>, pairs: set<(int, int)>,
                         username: string, productId: int)
    requires Assigned(users, rows, pairs, username, productId).0.Ok?
    ensures var once := Assigned(users, rows, pairs, username, productId).1;
      Assigned(users, rows, once, username, productId) == (Ok(AlreadyAssigned), once)
  {
  }

  /** Unassigning removes exactly the caller's pair, and fails without a
    * change when that pair is absent. */
  lemma UnassignRemovesPair(users: map<string, UserRow>, pairs: set<(int, int)>, username: string, productId: int)
    ensures var (r, after) := Unassigned(users, pairs, username, productId);
      && (r.Err? ==> after == pairs)
      && (r.Ok? <==> username in users && (users[username].id, productId) in pairs)
      && (r.Ok? ==> after == pairs - {(users[username].id, productId)})
      && (username in users && (users[username].id, productId) !in pairs ==> r == Err(NotAssigned))
  {
  }

  /** Unassigning a product just assigned restores the table, when the pair
    * was new. */
  lemma AssignThenUnassign(users: map<string, UserRow>, rows: seq<ProductRow>, pairs: set<(int, int)>,
                           username: string, productId: int)
    requires username in users && (users[username].id, productId) !in pairs
    requires exists row :: row in rows && row.id == productId
    ensures Unassigned(users, Assigned(users, rows, pairs, username, productId).1, username, productId).1 == pairs
  {
    var pair := (users[username].id, productId);
    assert pairs + {pair} - {pair} == pairs;
  }

  /** A route's caller, then its body. */
  function AssignRoute(users: map<string, UserRow>, rows: seq<ProductRow>, pairs: set<(int, int)>,
                       subject: Option<string>, productId: int): (Result<string, HttpError>, set<(int, int)>)
  {
    match CurrentActiveUser(users, subject)
    case Err(e) => (Err(e), pairs)
    case Ok(name) => Assigned(users, rows, pairs, name, productId)
  }

  function UnassignRoute(users: map<string, UserRow>, pairs: set<(int, int)>, subject: Option<string>, productId: int)
    : (Result<string, HttpError>, set<(int, int)>)
  {
    match CurrentActiveUser(users, subject)
    case Err(e) => (Err(e), pairs)
    case Ok(name) => Unassigned(users, pairs, name, productId)
  }

  /** `get_user_products`: the products paired with the caller, in table
    * order; a caller without a row is refused with 404. */
  function UserProductsOf(users: map<string, UserRow>, rows: seq<ProductRow>, pairs: set<(int, int)>,
                          subject: Option<string>): Result<seq<Types.Product>, HttpError>
  {
    match CurrentActiveUser(users, subject)
    case Err(e) => Err(e)
    case Ok(name) =>
      match Listed(rows, PairedWith(pairs, users[name].id))
      case None => Err(InternalError)
      case Some(ps) => Ok(ps)
  }

  /** What `get_user_products` answers holds exactly the products paired
    * with the caller's id. */
  lemma UserProductsExact(users: map<string, UserRow>, rows: seq<ProductRow>, pairs: set<(int, int)>, username: string)
    requires UserProductsOf(users, rows, pairs, Some(username)).Ok?
    ensures var ps := UserProductsOf(users, rows, pairs, Some(username)).value;
      forall p :: p in ps <==> exists row :: row in rows && (users[username].id, row.id) in pairs && Decoded(row) == Some(p)
  {
    ListedMembers(rows, PairedWith(pairs, users[username].id));
  }

  /** Assigning a product makes it one of the caller's products, and
    * unassigning it takes it out, as the next `get_user_products` sees. */
  lemma AssignedIsListed(users: map<string, UserRow>, rows: seq<ProductRow>, pairs: set<(int, int)>,
                         username: string, productId: int, row: ProductRow)
    requires CurrentActiveUser(users, Some(username)).Ok?
    requires row in rows && row.id == productId && Decoded(row).Some?
    ensures var after := AssignRoute(users, rows, pairs, Some(username), productId).1;
      UserProductsOf(users, rows, after, Some(username)).Ok? ==>
        Decoded(row).value in UserProductsOf(users, rows, after, Some(username)).value
    ensures var after := UnassignRoute(users, pairs, Some(username), productId).1;
      UserProductsOf(users, rows, after, Some(username)).Ok? ==>
        forall p :: p in UserProductsOf(users, rows, after, Some(username)).value ==> p.id != productId
  {
    var userId := users[username].id;
    var added := AssignRoute(users, rows, pairs, Some(username), productId).1;
    assert added == pairs + {(userId, productId)};
    if UserProductsOf(users, rows, added, Some(username)).Ok? {
      UserProductsExact(users, rows, added, username);
    }
    var removed := UnassignRoute(users, pairs, Some(username), productId).1;
    assert (userId, productId) !in removed;
    if UserProductsOf(users, rows, removed, Some(username)).Ok? {
      UserProductsExact(users, rows, removed, username);
    }
  }

  /** Once a prefix of the rows fails to convert, so do all of them. */
  lemma {:induction false} ListedFails(rows: seq<ProductRow>, keep: ProductRow -> bool, k: nat)
    requires k <= |rows| && Listed(rows[..k], keep).None?
    ensures Listed(rows, keep).None?
    decreases |rows| - k
  {
    if k < |rows| {
      assert rows[..k + 1][..k] == rows[..k];
      ListedFails(rows, keep, k + 1);
    } else {
      assert rows[..k] == rows;
    }
  }

  // ----------------------------------------------------------- the fixture

  /** The products `backend/create_db.py` inserts, as the server answers
    * them. */
  const SeedCatalog: seq<Types.Product> := [
    Types.Product(1, "Company Database", "Firmographic", 5250,
      ["Company name", "Company address", "Website", "Industry", "Employee count", "Revenue"],
      Some("Comprehensive database of company information including basic details and key metrics.")),
    Types.Product(2, "Contact Information", "Contact", 12500,
      ["Full name", "Email", "Phone number", "Job title", "Department"],
      Some("Database of business contacts with complete professional information.")),
    Types.Product(3, "Financial Metrics", "Financial", 3800,
      ["Annual revenue", "Profit margin", "Growth rate", "Funding rounds", "Investors"],
      Some("Detailed financial information for public and private companies.")),
    Types.Product(4, "Technology Stack", "Technographic", 4200,
      ["Technologies used", "Software vendors", "IT spending", "Cloud services"],
      Some("Information about the technologies and software companies are using.")),
    Types.Product(5, "Industry Trends", "Market Intelligence", 1800,
      ["Market size", "Growth projections", "Competitive landscape", "Market share"],
      Some("Market research data organized by industry vertical.")),
    Types.Product(6, "Social Media Presence", "Digital", 7500,
      ["Social profiles", "Follower count", "Engagement metrics", "Content strategy"],
      Some("Analysis of company social media presence and digital footprint."))
  ]

  /** The `products` rows the script writes: each product with its field
    * list as compact JSON text. */
  function SeedProducts(): (rows: seq<ProductRow>)
    ensures |rows| == |SeedCatalog| == 6
    ensures forall i :: 0 <= i < |rows| ==> rows[i].id == i + 1
    ensures forall i :: 0 <= i < |rows| ==> rows[i] == RowOf(SeedCatalog[i], SeedCatalog[i].description.value)
  {
    seq(|SeedCatalog|, i requires 0 <= i < |SeedCatalog| => RowOf(SeedCatalog[i], SeedCatalog[i].description.value))
  }

  /** Every seeded row reads back as the product it was written from. */
  lemma SeedReadsBack()
    ensures forall i :: 0 <= i < |SeedProducts()| ==> Decoded(SeedProducts()[i]) == Some(SeedCatalog[i])
  {
    forall i | 0 <= i < |SeedProducts()|
      ensures Decoded(SeedProducts()[i]) == Some(SeedCatalog[i])
    {
      StoredProductReadsBack(SeedCatalog[i], SeedCatalog[i].description.value);
    }
  }

  /** In the seeded database the demo user's products are the first three,
    * in table order. */
  lemma DemoHoldsFirstThree(demoHash: string)
    ensures var users := map["demo" := UserRow(1, Some("demo@example.com"), Some("Demo User"), demoHash, false)];
      UserProductsOf(users, SeedProducts(), {(1, 1), (1, 2), (1, 3)}, Some("demo")) == Ok(SeedCatalog[..3])
  {
    var rows := SeedProducts();
    var pairs := {(1, 1), (1, 2), (1, 3)};
    var keep := PairedWith(pairs, 1);
    SeedReadsBack();
    assert rows[..0] == [];
    var k := 0;
    while k < 6
      invariant 0 <= k <= 6
      invariant Listed(rows[..k], keep) == Some(SeedCatalog[..if k < 3 then k else 3])
    {
      ListedStep(rows, keep, k, SeedCatalog[..if k < 3 then k else 3]);
      assert keep(rows[k]) <==> k < 3 by {
        assert rows[k].id == k + 1;
      }
      if k < 3 {
        assert SeedCatalog[..k + 1] == SeedCatalog[..k] + [SeedCatalog[k]];
      }
      k := k + 1;
    }
    assert rows[..6] == rows;
  }

  /** Listing one more row appends its product when it is selected. */
  lemma ListedStep(rows: seq<ProductRow>, keep: ProductRow -> bool, k: nat, ps: seq<Types.Product>)
    requires k < |rows| && Listed(rows[..k], keep) == Some(ps)
    ensures !keep(rows[k]) ==> Listed(rows[..k + 1], keep) == Some(ps)
    ensures keep(rows[k]) && Decoded(rows[k]).Some? ==> Listed(rows[..k + 1], keep) == Some(ps + [Decoded(rows[k]).value])
  {
    assert rows[..k + 1][..k] == rows[..k];
  }

  // --------------------------------------------------------------- the server

  class Database {
    var users: map<string, UserRow>
    var products: seq<ProductRow>
    var assignments: set<(int, int)>
    /** The next id `AUTOINCREMENT` hands out. */
    var nextId: int

    /** User ids are unique and below `nextId`, product ids are unique, and
      * every assignment names an existing user and product. */
    predicate Valid()
      reads this
    {
      && (forall u :: u in users ==> users[u].id < nextId)
      && (forall u, v :: u in users && v in users && u != v ==> users[u].id != users[v].id)
      && UniqueIds(products)
      && (forall a :: a in assignments ==>
            (exists u :: u in users && users[u].id == a.0) && (exists row :: row in products && row.id == a.1))
    }

    /** The database `backend/create_db.py` leaves behind: the six products
      * and the demo user (id 1) holding products 1 to 3. */
    constructor Seeded(demoHash: string)
      ensures Valid()
      ensures users == map["demo" := UserRow(1, Some("demo@example.com"), Some("Demo User"), demoHash, false)]
      ensures products == SeedProducts()
      ensures assignments == {(1, 1), (1, 2), (1, 3)} && nextId == 2
    {
      users := map["demo" := UserRow(1, Some("demo@example.com"), Some("Demo User"), demoHash, false)];
      products := SeedProducts();
      assignments := {(1, 1), (1, 2), (1, 3)};
      nextId := 2;
      new;
      assert products[0] in products && products[1] in products && products[2] in products;
      assert "demo" in users && users["demo"].id == 1;
    }

    /** `register`: a new name gets a row with the next id, not disabled;
      * the answer leaves the password out. */
    method Register(username: string, email: Option<string>, fullName: Option<string>, hashedPassword: string)
      returns (r: Result<PublicUser, HttpError>)
      requires Valid()
      modifies this`users, this`nextId
      ensures Valid()
      ensures old(username in users) ==> r == Err(AlreadyRegistered) && users == old(users) && nextId == old(nextId)
      ensures old(username !in users) ==>
                && r == Ok(PublicUser(username, email, fullName, false))
                && users == old(users)[username := UserRow(old(nextId), email, fullName, hashedPassword, false)]
                && nextId == old(nextId) + 1
    {
      if username in users {
        return Err(AlreadyRegistered);
      }
      users := users[username := UserRow(nextId, email, fullName, hashedPassword, false)];
      nextId := nextId + 1;
      r := Ok(PublicUser(username, email, fullName, false));
      forall a | a in assignments
        ensures exists u :: u in users && users[u].id == a.0
      {
        var u :| u in old(users) && old(users)[u].id == a.0;
        assert u != username && u in users;
      }
    }

    /** `read_users_me`. */
    function Me(subject: Option<string>): (r: Result<PublicUser, HttpError>)
      reads this
      ensures r.Ok? <==> CurrentActiveUser(users, subject).Ok?
      ensures r.Ok? ==> r.value == Public(subject.value, users[subject.value]) && !r.value.disabled
    {
      match CurrentActiveUser(users, subject)
      case Err(e) => Err(e)
      case Ok(name) => Ok(Public(name, users[name]))
    }

    /** `get_product_by_id`. */
    function ProductById(subject: Option<string>, productId: int): (r: Result<Types.Product, HttpError>)
      reads this
      ensures r.Ok? ==> CurrentActiveUser(users, subject).Ok? && r.value.id == productId
                        && exists row :: row in products && row.id == productId && Decoded(row) == Some(r.value)
      ensures CurrentActiveUser(users, subject).Err? ==> r == Err(CurrentActiveUser(users, subject).error)
      ensures (CurrentActiveUser(users, subject).Ok? && forall row :: row in products ==> row.id != productId)
              ==> r == Err(ProductNotFound)
      ensures Valid() && CurrentActiveUser(users, subject).Ok? ==>
                forall row :: row in products && row.id == productId ==>
                  r == (if Decoded(row).Some? then Ok(Decoded(row).value) else Err(InternalError))
    {
      RowByIdIsTheRow(products, productId);
      match CurrentActiveUser(users, subject)
      case Err(e) => Err(e)
      case Ok(_) =>
        match RowById(products, productId)
        case None => Err(ProductNotFound)
        case Some(row) =>
          match Decoded(row)
          case None => Err(InternalError)
          case Some(p) => Ok(p)
    }

    /** `assign_product`. */
    method Assign(subject: Option<string>, productId: int) returns (r: Result<string, HttpError>)
      requires Valid()
      modifies this`assignments
      ensures Valid()
      ensures (r, assignments) == AssignRoute(users, products, old(assignments), subject, productId)
    {
      var caller := CurrentActiveUser(users, subject);
      if caller.Err? {
        return Err(caller.error);
      }
      var username := caller.value;
      if username !in users {
        return Err(UserNotFound);
      }
      var userId := users[username].id;
      var row := RowById(products, productId);
      if row.None? {
        return Err(ProductNotFound);
      }
      if (userId, productId) in assignments {
        return Ok(AlreadyAssigned);
      }
      assignments := assignments + {(userId, productId)};
      r := Ok("Product " + Json.NumberText(productId) + " assigned to user successfully");
    }

    /** `unassign_product`. */
    method Unassign(subject: Option<string>, productId: int) returns (r: Result<string, HttpError>)
      requires Valid()
      modifies this`assignments
      ensures Valid()
      ensures (r, assignments) == UnassignRoute(users, old(assignments), subject, productId)
    {
      var caller := CurrentActiveUser(users, subject);
      if caller.Err? {
        return Err(caller.error);
      }
      var username := caller.value;
      if username !in users {
        return Err(UserNotFound);
      }
      var userId := users[username].id;
      if (userId, productId) !in assignments {
        return Err(NotAssigned);
      }
      assignments := assignments - {(userId, productId)};
      r := Ok("Product " + Json.NumberText(productId) + " unassigned from user successfully");
    }

    /** The loop of `get_all_products` and `get_user_products`: convert the
      * selected rows one by one, appending each. */
    method Collect(keep: ProductRow -> bool) returns (r: Result<seq<Types.Product>, HttpError>)
      ensures Listed(products, keep).Some? ==> r == Ok(Listed(products, keep).value)
      ensures Listed(products, keep).None? ==> r == Err(InternalError)
    {
      var out: seq<Types.Product> := [];
      var i := 0;
      while i < |products|
        invariant 0 <= i <= |products|
        invariant Listed(products[..i], keep) == Some(out)
      {
        assert products[..i + 1][..i] == products[..i];
        if keep(products[i]) {
          var p := Decoded(products[i]);
          if p.None? {
            ListedFails(products, keep, i + 1);
            return Err(InternalError);
          }
          out := out + [p.value];
        }
        i := i + 1;
      }
      assert products[..i] == products;
      r := Ok(out);
    }

    /** `get_all_products`. */
    method AllProducts(subject: Option<string>) returns (r: Result<seq<Types.Product>, HttpError>)
      ensures CurrentActiveUser(users, subject).Err? ==> r == Err(CurrentActiveUser(users, subject).error)
      ensures CurrentActiveUser(users, subject).Ok? ==>
                r == (match Listed(products, (row: ProductRow) => true)
                      case None => Err(InternalError)
                      case Some(ps) => Ok(ps))
    {
      var caller := CurrentActiveUser(users, subject);
      if caller.Err? {
        return Err(caller.error);
      }
      r := Collect((row: ProductRow) => true);
    }

    /** `get_user_products`. */
    method UserProducts(subject: Option<string>) returns (r: Result<seq<Types.Product>, HttpError>)
      ensures r == UserProductsOf(users, products, assignments, subject)
    {
      var caller := CurrentActiveUser(users, subject);
      if caller.Err? {
        return Err(caller.error);
      }
      var userId := users[caller.value].id;
      r := Collect(PairedWith(assignments, userId));
    }
  }
}
