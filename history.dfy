/**
  Requests handled one after another against the same table, and what holds
  across any such sequence: usernames stay unique, no account loses or
  changes its digest, role, name or phone, approval is never withdrawn, the
  set of role-1 accounts never changes, and a login that succeeds once keeps
  succeeding.
 */
module History {
  import opened Accounts

  datatype Request =
    | SignupRequest(username: string, password: string, name: string, phone: string)
    | ApproveRequest(username: string, approver: string)
    | LoginRequest(username: string, password: string)

  /** The table after one request; a failed request leaves it as it was, and
      a login never writes. */
  function Apply(t: Table, hash: Hash, req: Request): (t': Table)
    ensures t.Keys <= t'.Keys && |t'| <= |t| + 1
    ensures !req.SignupRequest? ==> t'.Keys == t.Keys
    ensures req.LoginRequest? ==> t' == t
    ensures req.SignupRequest? && req.username in t ==> t' == t
    ensures req.ApproveRequest? && (!IsApprover(t, req.approver) || req.username !in t) ==> t' == t
  {
    match req
    case SignupRequest(u, p, n, ph) =>
      (match Signup(t, hash, u, p, n, ph) case Ok(t') => t' case Err(_) => t)
    case ApproveRequest(u, a) =>
      (match Approve(t, u, a) case Ok(t') => t' case Err(_) => t)
    case LoginRequest(_, _) => t
  }

  /** The table after the requests, handled in order. */
  function Replay(t: Table, hash: Hash, reqs: seq<Request>): (t': Table)
    decreases |reqs|
  {
    if reqs == [] then t else Replay(Apply(t, hash, reqs[0]), hash, reqs[1..])
  }

  /** What no request changes about an existing account. */
  predicate Keeps(before: User, after: User) {
    && after.username == before.username
    && after.password == before.password
    && after.name == before.name
    && after.phone == before.phone
    && after.role == before.role
    && (before.approved ==> after.approved)
  }

  /** The accounts holding role `role`. */
  function RoleHolders(t: Table, role: int): set<string> {
    set u | u in t && t[u].role == role
  }

  lemma ApplyKeepsAccounts(t: Table, hash: Hash, req: Request)
    ensures forall u :: u in t ==> u in Apply(t, hash, req) && Keeps(t[u], Apply(t, hash, req)[u])
  {
  }

  /** No sequence of requests removes an account or changes it other than by
      approving it. */
  lemma {:induction false} ReplayKeepsAccounts(t: Table, hash: Hash, reqs: seq<Request>)
    ensures forall u :: u in t ==> u in Replay(t, hash, reqs) && Keeps(t[u], Replay(t, hash, reqs)[u])
    decreases |reqs|
  {
    if reqs != [] {
      var t1 := Apply(t, hash, reqs[0]);
      ApplyKeepsAccounts(t, hash, reqs[0]);
      ReplayKeepsAccounts(t1, hash, reqs[1..]);
    }
  }

  /** Usernames stay unique: every reachable table is keyed by username. */
  lemma {:induction false} ReplayKeepsKeying(t: Table, hash: Hash, reqs: seq<Request>)
    requires KeyedByUsername(t)
    ensures KeyedByUsername(Replay(t, hash, reqs))
    decreases |reqs|
  {
    if reqs != [] {
      match reqs[0] {
        case SignupRequest(u, p, n, ph) => SignupKeepsKeying(t, hash, u, p, n, ph);
        case ApproveRequest(u, a) => ApproveKeepsKeying(t, u, a);
        case LoginRequest(_, _) =>
      }
      ReplayKeepsKeying(Apply(t, hash, reqs[0]), hash, reqs[1..]);
    }
  }

  /** No request grants role 1: the set of role-1 accounts never changes. */
  lemma {:induction false} ReplayKeepsAdmins(t: Table, hash: Hash, reqs: seq<Request>)
    ensures RoleHolders(Replay(t, hash, reqs), AdminRole) == RoleHolders(t, AdminRole)
    decreases |reqs|
  {
    if reqs != [] {
      var t1 := Apply(t, hash, reqs[0]);
      ApplyKeepsAccounts(t, hash, reqs[0]);
      assert RoleHolders(t1, AdminRole) == RoleHolders(t, AdminRole);
      ReplayKeepsAdmins(t1, hash, reqs[1..]);
    }
  }

  /** Once a login succeeds it keeps succeeding, with the same profile,
      whatever requests follow. */
  lemma LoginStaysSuccessful(t: Table, hash: Hash, reqs: seq<Request>, username: string, password: string)
    requires Login(t, hash, username, password).Ok?
    ensures Login(Replay(t, hash, reqs), hash, username, password) == Login(t, hash, username, password)
  {
    ReplayKeepsAccounts(t, hash, reqs);
  }

  /** A fresh sign-up, approved by an approver, can log in with the password it
      signed up with, and gets the general role. */
  lemma SignupApproveLogin(t: Table, hash: Hash, username: string, password: string, name: string, phone: string, approver: string)
    requires username !in t && IsApprover(t, approver)
    ensures Login(Replay(t, hash, [SignupRequest(username, password, name, phone), ApproveRequest(username, approver)]),
                  hash, username, password)
         == Ok(Profile(username, GeneralRole, name))
  {
    var reqs := [SignupRequest(username, password, name, phone), ApproveRequest(username, approver)];
    var t1 := Apply(t, hash, reqs[0]);
    var t2 := Apply(t1, hash, reqs[1]);
    assert reqs[1..] == [reqs[1]] && reqs[1..][1..] == [];
    assert Replay(t1, hash, reqs[1..]) == Replay(t2, hash, []) == t2;
    assert Replay(t, hash, reqs) == t2;
  }

  /** No account is approved in `t`. */
  predicate NoneApproved(t: Table) {
    forall u :: u in t ==> !t[u].approved
  }

  /** No account of `t` may approve. */
  predicate NoApprover(t: Table) {
    forall u :: u in t ==> !IsApprover(t, u)
  }

  /** Without an approver to start from, the handlers never produce one and
      never approve anyone: every account approved afterwards was approved
      before. */
  lemma {:induction false} NoApproverStaysSo(t: Table, hash: Hash, reqs: seq<Request>)
    requires NoApprover(t)
    ensures NoApprover(Replay(t, hash, reqs))
    ensures forall u :: u in Replay(t, hash, reqs) && Replay(t, hash, reqs)[u].approved ==>
      u in t && t[u].approved
    decreases |reqs|
  {
    if reqs != [] {
      var t1 := Apply(t, hash, reqs[0]);
      assert NoApprover(t1);
      NoApproverStaysSo(t1, hash, reqs[1..]);
    }
  }

  /** From a table where nobody is approved (the empty table, for one) nobody
      is ever approved and every login fails. */
  lemma NoneApprovedStaysSo(t: Table, hash: Hash, reqs: seq<Request>)
    requires NoneApproved(t)
    ensures NoneApproved(Replay(t, hash, reqs))
    ensures forall u, p :: Login(Replay(t, hash, reqs), hash, u, p).Err?
  {
    NoApproverStaysSo(t, hash, reqs);
  }
}
