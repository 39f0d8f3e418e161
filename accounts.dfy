/**
  The account table of the work-distributor server and the three request
  handlers that act on it (sign-up, approval, login), as functions on values.
  A table maps each username to its row; the class in store.dfy runs the same
  handlers imperatively and is proved against these functions.
 */
module Accounts {

  /** The password digest. The server uses SHA-256 in hex; here it is any
      deterministic function, and nothing is assumed about its output. */
  type Hash = string -> string

  /** Role number every new account is given. */
  const GeneralRole: int := 2
  /** Role number an approver must hold. */
  const AdminRole: int := 1

  /** One row of the `users` table (the autoincrement `id` is not modelled).
      `password` holds the digest, never the clear text. */
  datatype User = User(
    username: string,
    password: string,
    name: string,
    phone: string,
    role: int,
    approved: bool)

  /** The `users` table, keyed by its unique `username` column. */
  type Table = map<string, User>

  /** Every row is stored under its own username. Since the keys of a map are
      distinct, no two rows then share a username: the column's uniqueness
      constraint. */
  predicate KeyedByUsername(t: Table): (b: bool)
    ensures b ==> forall a, c :: a in t && c in t && t[a].username == t[c].username ==> a == c
  {
    forall u :: u in t ==> t[u].username == u
  }

  /** The distinct ways a request fails (the server reports them as HTTP
      errors with a detail string). */
  datatype Error =
    | Duplicate    // sign-up: the username is taken
    | Forbidden    // approval: the approver is not an approved admin
    | NotFound     // approval: no such user to approve
    | UnknownUser  // login: no such username
    | Unapproved   // login: the account has not been approved
    | BadPassword  // login: the digest does not match

  datatype Result<T> = Ok(value: T) | Err(error: Error)

  /** What a successful login returns besides its message. */
  datatype Profile = Profile(username: string, role: int, name: string)

  /** The row sign-up inserts: digest of the password, general role, not approved. */
  function NewUser(hash: Hash, username: string, password: string, name: string, phone: string): (u: User)
    ensures u.username == username && u.password == hash(password)
    ensures u.name == name && u.phone == phone
    ensures u.role == GeneralRole && !u.approved
  {
    User(username, hash(password), name, phone, GeneralRole, false)
  }

  /** Sign-up: refuses a taken username, otherwise inserts one new row. */
  function Signup(t: Table, hash: Hash, username: string, password: string, name: string, phone: string): (r: Result<Table>)
    ensures r.Err? <==> username in t
    ensures r.Err? ==> r.error == Duplicate
    ensures r.Ok? ==> r.value.Keys == t.Keys + {username} && |r.value| == |t| + 1
    ensures r.Ok? ==> r.value[username] == NewUser(hash, username, password, name, phone)
    ensures r.Ok? ==> forall v :: v in t ==> r.value[v] == t[v]
  {
    if username in t then Err(Duplicate)
    else Ok(t[username := NewUser(hash, username, password, name, phone)])
  }

  /** The approver query: a row with that username that is approved and has
      the admin role. On a table keyed by username it agrees with the query
      over all rows on those three columns. */
  predicate IsApprover(t: Table, approver: string): (b: bool)
    ensures KeyedByUsername(t) ==>
      (b <==> exists k :: k in t && t[k].username == approver && t[k].approved && t[k].role == AdminRole)
  {
    approver in t && t[approver].approved && t[approver].role == AdminRole
  }

  /** Approval: the approver is checked first, then the target; on success
      only the target's `approved` flag changes. */
  function Approve(t: Table, username: string, approver: string): (r: Result<Table>)
    ensures r == Err(Forbidden) <==> !IsApprover(t, approver)
    ensures r == Err(NotFound) <==> IsApprover(t, approver) && username !in t
    ensures r.Ok? <==> IsApprover(t, approver) && username in t
    ensures r.Ok? ==> r.value.Keys == t.Keys && r.value[username].approved
    ensures r.Ok? ==> r.value[username] == t[username].(approved := true)
    ensures r.Ok? ==> forall v :: v in t && v != username ==> r.value[v] == t[v]
  {
    if !IsApprover(t, approver) then Err(Forbidden)
    else if username !in t then Err(NotFound)
    else Ok(t[username := t[username].(approved := true)])
  }

  /** Login: unknown username, then unapproved, then digest mismatch. */
  function Login(t: Table, hash: Hash, username: string, password: string): (r: Result<Profile>)
    ensures r.Ok? <==> username in t && t[username].approved && t[username].password == hash(password)
    ensures r.Ok? ==> r.value == Profile(username, t[username].role, t[username].name)
    ensures r.Err? ==> r.error in {UnknownUser, Unapproved, BadPassword}
  {
    if username !in t then Err(UnknownUser)
    else if !t[username].approved then Err(Unapproved)
    else if t[username].password != hash(password) then Err(BadPassword)
    else Ok(Profile(username, t[username].role, t[username].name))
  }

  /** The order in which login rejects: the first two failures do not depend
      on the password at all. */
  lemma LoginRejectionOrder(t: Table, hash: Hash, username: string)
    ensures username !in t ==> forall p :: Login(t, hash, username, p) == Err(UnknownUser)
    ensures username in t && !t[username].approved ==>
      forall p :: Login(t, hash, username, p) == Err(Unapproved)
    ensures username in t && t[username].approved ==>
      forall p :: hash(p) != t[username].password ==> Login(t, hash, username, p) == Err(BadPassword)
  {
  }

  /** The handlers look a row up with a query on the username column. On a
      table keyed by username that query finds a row exactly when the name is
      a key, and the row it finds is the one stored under that key. */
  lemma QueryIsLookup(t: Table, username: string)
    requires KeyedByUsername(t)
    ensures (exists k :: k in t && t[k].username == username) <==> username in t
    ensures forall k :: k in t && t[k].username == username ==> t[k] == t[username]
  {
    if username in t {
      assert t[username].username == username;
    }
  }

  /** Each handler keeps the table keyed by username. */
  lemma SignupKeepsKeying(t: Table, hash: Hash, username: string, password: string, name: string, phone: string)
    requires KeyedByUsername(t)
    ensures Signup(t, hash, username, password, name, phone).Ok? ==>
      KeyedByUsername(Signup(t, hash, username, password, name, phone).value)
  {
  }

  lemma ApproveKeepsKeying(t: Table, username: string, approver: string)
    requires KeyedByUsername(t)
    ensures Approve(t, username, approver).Ok? ==> KeyedByUsername(Approve(t, username, approver).value)
  {
  }

  /** Approving the same user again, with the same approver, succeeds and
      changes nothing more. */
  lemma ApproveIdempotent(t: Table, username: string, approver: string)
    requires Approve(t, username, approver).Ok?
    ensures Approve(Approve(t, username, approver).value, username, approver)
         == Approve(t, username, approver)
  {
    var t1 := Approve(t, username, approver).value;
    assert IsApprover(t1, approver);
    assert t1[username := t1[username].(approved := true)] == t1;
  }
}
