/**
 * The four persisted collections of the server (users, groups, crushes,
 * letters) and the in-memory store the route handlers read and update.
 * Document ids are plain strings; email addresses are plain strings.
 */
module Models {
  import opened Wrappers
  import opened Seqs

  /** A registered account.  `name` and `lang` default to "". */
  datatype User = User(email: string, name: string, lang: string)

  /** A group.  `description` and `creatorEmail` default to "", the lists to []. */
  datatype Group = Group(
    id: string,
    name: string,
    description: string,
    creatorEmail: string,
    memberEmails: seq<string>,
    invitedEmails: seq<string>)
  {
    /** Members and invitees together, the quantity capped by MAX_TOTAL_MEMBERS. */
    function TotalSize(): nat {
      |memberEmails| + |invitedEmails|
    }

    /** `name` is `required: true`: Mongoose refuses to save a group whose name is "". */
    predicate Saveable() {
      name != ""
    }
  }

  /** A crush declaration of one sender for one "YYYY-MM" month. `message` defaults to "". */
  datatype Crush = Crush(fromEmail: string, toEmail: string, month: string, message: string)

  /** An anonymous letter; `timestamp` is milliseconds since the epoch. */
  datatype Letter = Letter(
    id: string,
    fromEmail: string,
    fromGroupId: string,
    toEmail: string,
    alias: string,
    content: string,
    timestamp: int)

  /** The HTTP outcome of a handler together with the message of its JSON body. */
  datatype Status =
    | Ok(message: string)
    | Created(message: string)
    | BadRequest(message: string)
    | Forbidden(message: string)
    | NotFound(message: string)
    | TooManyRequests(message: string)
    | InternalError(message: string)
  {
    function Code(): nat {
      match this
      case Ok(_) => 200
      case Created(_) => 201
      case BadRequest(_) => 400
      case Forbidden(_) => 403
      case NotFound(_) => 404
      case TooManyRequests(_) => 429
      case InternalError(_) => 500
    }
  }

  /** A JSON body field that should hold an array of strings. */
  datatype ListField = Undefined | NotAnArray | List(items: seq<string>)

  /** `Array.isArray(x) ? x : []`. */
  function ArrayOrEmpty(f: ListField): (r: seq<string>)
    ensures f.List? ==> r == f.items
    ensures !f.List? ==> r == []
  {
    if f.List? then f.items else []
  }

  /** JavaScript truthiness of an optional string body field: present and not "". */
  predicate Truthy(s: Option<string>) {
    s.Some? && s.value != ""
  }

  /** The position of the first element of xs whose key is k, if any: a Mongoose lookup by one field. */
  function FindFirst<T>(xs: seq<T>, key: T -> string, k: string): (r: Option<nat>)
    ensures r.Some? ==> r.value < |xs| && key(xs[r.value]) == k
    ensures r.None? <==> forall i :: 0 <= i < |xs| ==> key(xs[i]) != k
    ensures r.Some? ==> forall i :: 0 <= i < r.value ==> key(xs[i]) != k
  {
    if xs == [] then None
    else if key(xs[0]) == k then Some(0)
    else
      match FindFirst(xs[1..], key, k)
      case None => None
      case Some(i) => Some(i + 1)
  }

  function GroupId(g: Group): string { g.id }

  function UserEmail(u: User): string { u.email }

  /** `Model.findById(id)`: the position of the group with that id, if any. */
  function FindGroup(groups: seq<Group>, id: string): (r: Option<nat>)
    ensures r.Some? ==> r.value < |groups| && groups[r.value].id == id
    ensures r.None? <==> forall k :: 0 <= k < |groups| ==> groups[k].id != id
    ensures r.Some? ==> forall k :: 0 <= k < r.value ==> groups[k].id != id
  {
    FindFirst(groups, GroupId, id)
  }

  /** `User.findOne({ email })`: the position of the first user with that email, if any. */
  function FindUser(users: seq<User>, email: string): (r: Option<nat>)
    ensures r.Some? ==> r.value < |users| && users[r.value].email == email
    ensures r.None? <==> forall k :: 0 <= k < |users| ==> users[k].email != email
    ensures r.Some? ==> forall k :: 0 <= k < r.value ==> users[k].email != email
  {
    FindFirst(users, UserEmail, email)
  }

  predicate UniqueGroupIds(groups: seq<Group>) {
    forall i, j :: 0 <= i < j < |groups| ==> groups[i].id != groups[j].id
  }

  predicate UniqueLetterIds(letters: seq<Letter>) {
    forall i, j :: 0 <= i < j < |letters| ==> letters[i].id != letters[j].id
  }

  /** Every stored group passed the `required` validator on its name. */
  predicate NamedGroups(groups: seq<Group>) {
    forall i :: 0 <= i < |groups| ==> groups[i].Saveable()
  }

  /** The `unique: true` index on `User.email`. */
  predicate UniqueUserEmails(users: seq<User>) {
    forall i, j :: 0 <= i < j < |users| ==> users[i].email != users[j].email
  }

  /** With unique ids, the group found by id is the only one carrying it. */
  lemma FindGroupUnique(groups: seq<Group>, id: string, k: nat)
    requires UniqueGroupIds(groups)
    requires k < |groups| && groups[k].id == id
    ensures FindGroup(groups, id) == Some(k)
  {
  }

  /** The database: one collection per model, in natural (insertion) order. */
  class Store {
    var users: seq<User>
    var groups: seq<Group>
    var crushes: seq<Crush>
    var letters: seq<Letter>

    /**
     * What the database guarantees: generated ids and the unique email index
     * are unique, and every stored group passed its schema validation.
     */
    ghost predicate Valid()
      reads this
    {
      UniqueGroupIds(groups) && UniqueLetterIds(letters) && UniqueUserEmails(users) && NamedGroups(groups)
    }

    constructor()
      ensures Valid()
      ensures users == [] && groups == [] && crushes == [] && letters == []
    {
      users := [];
      groups := [];
      crushes := [];
      letters := [];
    }
  }
}
