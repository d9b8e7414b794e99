/** The records the front end passes around. */
module Types {
  import opened Wrappers
  import Json

  /** A catalog entry. `frontend/types/index.ts` makes `description`
    * optional; the dashboard's own declaration and the server always
    * supply one. */
  datatype Product = Product(
    id: int,
    name: string,
    dataCategory: string,
    recordCount: int,
    fields: seq<string>,
    description: Option<string>)

  /** The client-side user record of `frontend/types/index.ts`. */
  datatype User = User(id: int, email: string, name: string)

  /** The object a `User` is as a JavaScript value. */
  function UserToJson(u: User): Json.Value {
    Json.JObj([
      Json.Member("id", Json.JNum(u.id)),
      Json.Member("email", Json.JStr(u.email)),
      Json.Member("name", Json.JStr(u.name))])
  }
}
