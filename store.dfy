/**
  The server's handlers as they run against the shared `users` table: one
  object holds the table, sign-up inserts a row, approval updates a row in
  place, and login only reads. Each handler is proved against the matching
  function of module Accounts.
 */
module Server {
  import opened Accounts

  class UserStore {
    /** The password digest the handlers share. */
    const hash: Hash
    /** The `users` table. */
    var users: Table

    ghost predicate Valid()
      reads this
    {
      KeyedByUsername(users)
    }

    /** Opens the store on the rows already in the database file. */
    constructor (hash: Hash, rows: Table)
      requires KeyedByUsername(rows)
      ensures Valid()
      ensures this.hash == hash && users == rows
    {
      this.hash := hash;
      users := rows;
    }

    /** `POST /signup`. */
    method SignUp(username: string, password: string, name: string, phone: string) returns (r: Result<()>)
      requires Valid()
      modifies this
      ensures Valid()
      ensures r.Err? ==> users == old(users)
      ensures Signup(old(users), hash, username, password, name, phone)
           == if r.Ok? then Ok(users) else Err(r.error)
    {
      if username in users {
        return Err(Duplicate);
      }
      var digest := hash(password);
      var row := User(username, digest, name, phone, GeneralRole, false);
      users := users[username := row];
      r := Ok(());
    }

    /** `POST /approve_user`: `approver` approves `username`. */
    method ApproveUser(username: string, approver: string) returns (r: Result<()>)
      requires Valid()
      modifies this
      ensures Valid()
      ensures r.Err? ==> users == old(users)
      ensures Approve(old(users), username, approver)
           == if r.Ok? then Ok(users) else Err(r.error)
    {
      if !(approver in users && users[approver].approved && users[approver].role == AdminRole) {
        return Err(Forbidden);
      }
      if username !in users {
        return Err(NotFound);
      }
      var row := users[username];
      row := row.(approved := true);
      users := users[username := row];
      r := Ok(());
    }

    /** `POST /login`; reads the table and changes nothing. */
    method LogIn(username: string, password: string) returns (r: Result<Profile>)
      requires Valid()
      ensures r == Login(users, hash, username, password)
      ensures username !in users ==> r == Err(UnknownUser)
      ensures username in users && !users[username].approved ==> r == Err(Unapproved)
      ensures r.Ok? <==>
        username in users && users[username].approved && users[username].password == hash(password)
    {
      if username !in users {
        return Err(UnknownUser);
      }
      var user := users[username];
      if !user.approved {
        return Err(Unapproved);
      }
      var digest := hash(password);
      if user.password != digest {
        return Err(BadPassword);
      }
      r := Ok(Profile(user.username, user.role, user.name));
    }
  }
}
