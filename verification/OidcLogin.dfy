/** Binding OIDC subjects to users at login: src/server/oasisapi/oidc/generic_auth.py. One attempt is
    one transaction. */
module OidcLogin {
  import opened Options
  import opened Text

  datatype User = User(username: string, active: bool, admin: bool, groups: set<string>)

  /** The user table, the subject bound to each user, and the next primary key. */
  datatype Db = Db(users: map<nat, User>, subjects: map<nat, string>, next: nat)

  /** The subject claim may be missing: it is not required. */
  datatype Claims = Claims(sub: Option<string>, username: string, serviceAccount: bool, groups: Option<seq<string>>)

  datatype Outcome = LoggedIn(user: nat) | PermissionDenied | Suspicious | IntegrityError

  // ---- one transaction -----------------------------------------------------

  function Stripped(group: string): string {
    if group != "" && group[0] == '/' then Stripped(group[1..]) else group
  }

  function GroupNames(claims: Claims): set<string> {
    set g | g in claims.groups.GetOr([]) :: Stripped(g)
  }

  /** A user without group claims is acceptable only as a service account. */
  predicate GroupsGiven(claims: Claims) {
    claims.groups.Some? || claims.serviceAccount
  }

  function WithClaims(user: User, claims: Claims): User {
    user.(admin := claims.serviceAccount || "admin" in GroupNames(claims), groups := GroupNames(claims))
  }

  /** The user is bound to the subject, ignoring case. */
  predicate Bound(db: Db, user: nat, sub: Option<string>) {
    sub.Some? && user in db.subjects && Lower(db.subjects[user]) == Lower(sub.value)
  }

  function BoundUsers(db: Db, sub: Option<string>): set<nat> {
    set u | u in db.subjects && Bound(db, u, sub)
  }

  /** The user bound to a non-empty subject, if there is exactly one. */
  ghost function UserBySubject(db: Db, sub: Option<string>): Option<nat> {
    if sub.GetOr("") != "" && |BoundUsers(db, sub)| == 1 then
      var u :| u in BoundUsers(db, sub);
      Some(u)
    else None
  }

  /** A subject as it appears in a name. */
  function Shown(sub: Option<string>): string {
    sub.GetOr("None")
  }

  function ArchivedName(username: string, sub: Option<string>): string {
    username + "-" + Shown(sub)
  }

  /** Users holding the name, ignoring case, who are not bound to the subject. */
  function Holders(db: Db, username: string, sub: Option<string>): set<nat> {
    set u | u in db.users && Lower(db.users[u].username) == Lower(username) && !Bound(db, u, sub)
  }

  /** Users in the way of archiving `holders`: they have one of the archive names and another identity. */
  function Doomed(db: Db, holders: set<nat>, sub: Option<string>): set<nat>
    requires holders <= db.users.Keys
  {
    set u | u in db.users && !Bound(db, u, sub)
            && exists h :: h in holders && db.users[u].username == ArchivedName(db.users[h].username, sub)
  }

  /** The name is taken by a user of the same identity, who is not removed for it. */
  predicate Blocked(db: Db, name: string, sub: Option<string>) {
    exists u :: u in db.users && Bound(db, u, sub) && db.users[u].username == name
  }

  predicate Clashes(db: Db, holders: set<nat>, sub: Option<string>)
    requires holders <= db.users.Keys
  {
    exists h :: h in holders && Blocked(db, ArchivedName(db.users[h].username, sub), sub)
  }

  /** The holders renamed and deactivated, whoever had their archive names deleted. */
  function Archived(db: Db, holders: set<nat>, sub: Option<string>): Db
    requires holders <= db.users.Keys
  {
    var doomed := Doomed(db, holders, sub);
    Db(map u | u in db.users && u !in doomed ::
         if u in holders then db.users[u].(username := ArchivedName(db.users[u].username, sub), active := false)
         else db.users[u],
       db.subjects - doomed,
       db.next)
  }

  predicate NameTaken(db: Db, username: string) {
    exists u :: u in db.users && db.users[u].username == username
  }

  ghost function UserByName(db: Db, username: string): nat
    requires NameTaken(db, username)
  {
    var u :| u in db.users && db.users[u].username == username; u
  }

  ghost function Updated(db: Db, u: nat, username: string, claims: Claims): (Db, Outcome)
    requires u in db.users
  {
    if db.users[u].username != username && NameTaken(db, username) then (db, IntegrityError)
    else if !GroupsGiven(claims) then (db, Suspicious)
    else (db.(users := db.users[u := WithClaims(db.users[u].(username := username), claims)]), LoggedIn(u))
  }

  ghost function Created(db: Db, username: string, claims: Claims): (Db, Outcome) {
    var u := if NameTaken(db, username) then UserByName(db, username) else db.next;
    var user := if NameTaken(db, username) then db.users[u] else User(username, true, false, {});
    if !GroupsGiven(claims) then (db, Suspicious)
    else if u in db.subjects && Some(db.subjects[u]) != claims.sub then (db, PermissionDenied)
    else if claims.sub.None? then (db, IntegrityError)
    else (Db(db.users[u := WithClaims(user, claims)], db.subjects[u := claims.sub.value],
             if NameTaken(db, username) then db.next else db.next + 1),
          LoggedIn(u))
  }

  /** One transaction; every failure rolls all of it back. */
  ghost function Attempt(db: Db, username: string, claims: Claims): (Db, Outcome)
    requires db.subjects.Keys <= db.users.Keys
  {
    var bound := UserBySubject(db, claims.sub);
    if bound.Some? then Updated(db, bound.value, username, claims)
    else
      var holders := Holders(db, username, claims.sub);
      if Clashes(db, holders, claims.sub) then (db, IntegrityError)
      else
        var (db', outcome) := Created(Archived(db, holders, claims.sub), username, claims);
        if outcome.LoggedIn? then (db', outcome) else (db, outcome)
  }

  /** The name a login goes by; none is an error. */
  function LoginName(claims: Claims): Option<string> {
    if claims.username != "" then Some(claims.username)
    else if claims.serviceAccount then Some("svc-" + Shown(claims.sub))
    else None
  }

  // ---- the identity invariant ----------------------------------------------

  /** What the database enforces: unique usernames, bindings of existing users, fresh keys. */
  ghost predicate Consistent(db: Db) {
    && (forall u, v :: u in db.users && v in db.users && db.users[u].username == db.users[v].username ==> u == v)
    && db.subjects.Keys <= db.users.Keys
    && (forall u :: u in db.users ==> u < db.next)
  }

  /** Each subject, ignoring case, is bound to at most one user. */
  ghost predicate OneUserPerSubject(db: Db) {
    forall u, v :: u in db.subjects && v in db.subjects && Lower(db.subjects[u]) == Lower(db.subjects[v]) ==> u == v
  }

  lemma LowerLength(a: string, b: string)
    requires Lower(a) == Lower(b)
    ensures |a| == |b|
  {
  }

  lemma HoldersAreNotDoomed(db: Db, username: string, sub: Option<string>)
    ensures Holders(db, username, sub) !! Doomed(db, Holders(db, username, sub), sub)
  {
  }

  lemma ArchivedConsistent(db: Db, username: string, sub: Option<string>)
    requires Consistent(db) && !Clashes(db, Holders(db, username, sub), sub)
    ensures Consistent(Archived(db, Holders(db, username, sub), sub))
  {
    var holders := Holders(db, username, sub);
    var db' := Archived(db, holders, sub);
    forall u, v | u in db'.users && v in db'.users && db'.users[u].username == db'.users[v].username
      ensures u == v
    {
      if u != v {
        ArchivedNamesDiffer(db, holders, sub, u, v);
        ArchivedNamesDiffer(db, holders, sub, v, u);
      }
    }
  }

  lemma ArchivedNamesDiffer(db: Db, holders: set<nat>, sub: Option<string>, u: nat, v: nat)
    requires Consistent(db) && holders <= db.users.Keys && !Clashes(db, holders, sub)
    requires u in Archived(db, holders, sub).users && v in Archived(db, holders, sub).users && u != v
    ensures u in holders ==> Archived(db, holders, sub).users[u].username != Archived(db, holders, sub).users[v].username
    ensures u !in holders && v !in holders ==>
      Archived(db, holders, sub).users[u].username != Archived(db, holders, sub).users[v].username
  {
    var a, b := db.users[u].username, db.users[v].username;
    if u in holders && v in holders {
      assert ArchivedName(a, sub)[..|a|] == a && ArchivedName(b, sub)[..|b|] == b;
    }
  }

  lemma UserBySubjectIsBound(db: Db, sub: Option<string>)
    requires UserBySubject(db, sub).Some?
    ensures Bound(db, UserBySubject(db, sub).value, sub)
  {
  }

  lemma BoundIsFound(db: Db, sub: Option<string>, u: nat)
    requires OneUserPerSubject(db) && sub != Some("")
    ensures Bound(db, u, sub) ==> UserBySubject(db, sub) == Some(u)
  {
    if Bound(db, u, sub) {
      assert BoundUsers(db, sub) == {u};
    }
  }

  lemma NobodyBound(db: Db, sub: Option<string>)
    requires OneUserPerSubject(db) && sub != Some("") && UserBySubject(db, sub).None?
    ensures forall u: nat :: !Bound(db, u, sub)
  {
    forall u: nat { BoundIsFound(db, sub, u); }
  }

  /** A login never archives, deletes or unbinds a user bound to its own subject, whatever state the
      database is in. */
  lemma OwnIdentityIsKept(db: Db, username: string, claims: Claims, u: nat)
    requires Consistent(db) && Bound(db, u, claims.sub)
    ensures var db' := Attempt(db, username, claims).0;
      u in db'.users && db'.users[u].active == db.users[u].active && Bound(db', u, claims.sub)
  {
    if UserBySubject(db, claims.sub).Some? {
      OwnIdentityUpdated(db, UserBySubject(db, claims.sub).value, username, claims, u);
    } else if !Clashes(db, Holders(db, username, claims.sub), claims.sub) {
      ArchivedConsistent(db, username, claims.sub);
      OwnIdentityNotArchived(db, username, claims.sub, u);
      OwnIdentityCreated(Archived(db, Holders(db, username, claims.sub), claims.sub), username, claims, u);
    }
  }

  lemma OwnIdentityUpdated(db: Db, v: nat, username: string, claims: Claims, u: nat)
    requires Consistent(db) && v in db.users && Bound(db, u, claims.sub)
    ensures var db' := Updated(db, v, username, claims).0;
      u in db'.users && db'.users[u].active == db.users[u].active && Bound(db', u, claims.sub)
  {
  }

  lemma OwnIdentityNotArchived(db: Db, username: string, sub: Option<string>, u: nat)
    requires Consistent(db) && Bound(db, u, sub)
    ensures var db' := Archived(db, Holders(db, username, sub), sub);
      u in db'.users && db'.users[u] == db.users[u] && Bound(db', u, sub)
  {
  }

  lemma OwnIdentityCreated(db: Db, username: string, claims: Claims, u: nat)
    requires Consistent(db) && Bound(db, u, claims.sub)
    ensures var db' := Created(db, username, claims).0;
      u in db'.users && db'.users[u].active == db.users[u].active && Bound(db', u, claims.sub)
  {
  }

  /** The user logged in bears the login's name and is bound to its subject. */
  ghost predicate IsLogin(db: Db, u: nat, username: string, sub: Option<string>) {
    u in db.users && db.users[u].username == username && Bound(db, u, sub)
  }

  lemma UpdateKeepsIdentities(db: Db, u: nat, username: string, claims: Claims)
    requires Consistent(db) && OneUserPerSubject(db) && Bound(db, u, claims.sub)
    ensures var (db', outcome) := Updated(db, u, username, claims);
      Consistent(db') && OneUserPerSubject(db') && (outcome.LoggedIn? ==> IsLogin(db', outcome.user, username, claims.sub))
  {
  }

  lemma CreateKeepsIdentities(db: Db, username: string, claims: Claims)
    requires Consistent(db) && OneUserPerSubject(db) && !NameTaken(db, username)
    requires forall u: nat :: !Bound(db, u, claims.sub)
    ensures var (db', outcome) := Created(db, username, claims);
      Consistent(db') && OneUserPerSubject(db') && (outcome.LoggedIn? ==> IsLogin(db', outcome.user, username, claims.sub))
  {
    CreatedConsistent(db, username, claims);
    if claims.sub.Some? {
      NewBindingIsAlone(db, claims.sub);
    }
  }

  lemma NewBindingIsAlone(db: Db, sub: Option<string>)
    requires Consistent(db) && OneUserPerSubject(db) && sub.Some? && forall u: nat :: !Bound(db, u, sub)
    ensures OneUserPerSubject(db.(subjects := db.subjects[db.next := sub.value]))
  {
    assert forall u :: u in db.subjects ==> !Bound(db, u, sub);
  }

  /** A login without a subject fails and changes nothing: it is refused for want of groups, or else by the
      database. */
  lemma MissingSubjectFails(db: Db, username: string, claims: Claims)
    requires Consistent(db) && claims.sub.None?
    ensures Attempt(db, username, claims).0 == db
    ensures Attempt(db, username, claims).1
         == if claims.groups.Some? || claims.serviceAccount then IntegrityError else Suspicious
  {
    NameIsFree(db, username, claims.sub);
  }

  /** A login whose subject is not empty keeps the database consistent and each subject with one user;
      when it succeeds, the user returned bears the login's name and is bound to its subject, and when
      it fails nothing changes. */
  lemma LoginKeepsIdentities(db: Db, username: string, claims: Claims)
    requires Consistent(db) && OneUserPerSubject(db) && claims.sub != Some("")
    ensures Consistent(Attempt(db, username, claims).0) && OneUserPerSubject(Attempt(db, username, claims).0)
    ensures if Attempt(db, username, claims).1.LoggedIn?
            then IsLogin(Attempt(db, username, claims).0, Attempt(db, username, claims).1.user, username, claims.sub)
            else Attempt(db, username, claims).0 == db
  {
    var bound := UserBySubject(db, claims.sub);
    if bound.Some? {
      UserBySubjectIsBound(db, claims.sub);
      UpdateKeepsIdentities(db, bound.value, username, claims);
    } else {
      NobodyBound(db, claims.sub);
      var holders := Holders(db, username, claims.sub);
      if !Clashes(db, holders, claims.sub) {
        ArchivedConsistent(db, username, claims.sub);
        NameIsFree(db, username, claims.sub);
        CreateKeepsIdentities(Archived(db, holders, claims.sub), username, claims);
      }
    }
  }

  /** Archiving frees the name when nobody is bound to the subject. */
  lemma NameIsFree(db: Db, username: string, sub: Option<string>)
    requires Consistent(db) && forall u: nat :: !Bound(db, u, sub)
    ensures !NameTaken(Archived(db, Holders(db, username, sub), sub), username)
  {
  }

  // ---- every run of logins -------------------------------------------------

  /** The database after a run of login attempts, retries among them, in any order. */
  ghost function AfterLogins(db: Db, logins: seq<Claims>): (db': Db)
    requires Consistent(db)
    ensures Consistent(db')
  {
    if logins == [] then db
    else
      var before := AfterLogins(db, logins[..|logins| - 1]);
      var claims := logins[|logins| - 1];
      if LoginName(claims).None? then before
      else
        AttemptConsistent(before, LoginName(claims).value, claims);
        Attempt(before, LoginName(claims).value, claims).0
  }

  lemma AttemptConsistent(db: Db, username: string, claims: Claims)
    requires Consistent(db)
    ensures Consistent(Attempt(db, username, claims).0)
  {
    if UserBySubject(db, claims.sub).Some? {
      UserBySubjectIsBound(db, claims.sub);
    } else if !Clashes(db, Holders(db, username, claims.sub), claims.sub) {
      ArchivedConsistent(db, username, claims.sub);
      CreatedConsistent(Archived(db, Holders(db, username, claims.sub), claims.sub), username, claims);
    }
  }

  lemma CreatedConsistent(db: Db, username: string, claims: Claims)
    requires Consistent(db)
    ensures Consistent(Created(db, username, claims).0)
  {
  }

  /** Over any run of logins none of whose subjects is empty no subject comes to be bound to two users. */
  lemma {:induction false} LoginsKeepIdentities(db: Db, logins: seq<Claims>)
    requires Consistent(db) && OneUserPerSubject(db) && forall c :: c in logins ==> c.sub != Some("")
    ensures OneUserPerSubject(AfterLogins(db, logins))
  {
    if logins != [] {
      var init, claims := logins[..|logins| - 1], logins[|logins| - 1];
      LoginsKeepIdentities(db, init);
      assert claims in logins;
      if LoginName(claims).Some? {
        LoginKeepsIdentities(AfterLogins(db, init), LoginName(claims).value, claims);
      }
    }
  }

  /** A login with its retry; the logins `between` come between the two attempts. */
  ghost function Retried(db: Db, username: string, claims: Claims, between: seq<Claims>): (Db, Outcome)
    requires Consistent(db)
  {
    AttemptConsistent(db, username, claims);
    var (db1, outcome) := Attempt(db, username, claims);
    if outcome != IntegrityError then (db1, outcome) else Attempt(AfterLogins(db1, between), username, claims)
  }

  /** Whoever logs in between the two attempts, a login whose subject is not empty returns the user bound
      to it, and each subject stays with one user. Left alone, it comes to a single attempt. */
  lemma RetryKeepsIdentities(db: Db, username: string, claims: Claims, between: seq<Claims>)
    requires Consistent(db) && OneUserPerSubject(db) && claims.sub != Some("") && forall c :: c in between ==> c.sub != Some("")
    ensures var (after, outcome) := Retried(db, username, claims, between);
      && Consistent(after) && OneUserPerSubject(after)
      && (outcome.LoggedIn? ==> IsLogin(after, outcome.user, username, claims.sub))
    ensures between == [] ==> Retried(db, username, claims, between) == Attempt(db, username, claims)
  {
    LoginKeepsIdentities(db, username, claims);
    LoginsKeepIdentities(db, between);
    LoginKeepsIdentities(AfterLogins(db, between), username, claims);
  }

  // ---- roles, groups and other users ---------------------------------------

  /** The claimed group is `group` behind any number of slashes. */
  predicate Behind(claimed: string, group: string) {
    && |group| <= |claimed| && claimed[|claimed| - |group|..] == group
    && (forall i :: 0 <= i < |claimed| - |group| ==> claimed[i] == '/')
    && (group == "" || group[0] != '/')
  }

  ghost predicate InGroup(claims: Claims, group: string) {
    claims.groups.Some? && exists claimed :: claimed in claims.groups.value && Behind(claimed, group)
  }

  /** The user has the role and the groups of the claims. */
  ghost predicate HasRole(user: User, claims: Claims) {
    && (user.admin <==> claims.serviceAccount || InGroup(claims, "admin"))
    && (forall group :: group in user.groups <==> InGroup(claims, group))
  }

  lemma {:induction false} StrippedIsBehind(claimed: string, group: string)
    ensures Behind(claimed, group) <==> group == Stripped(claimed)
  {
    if claimed != "" && claimed[0] == '/' {
      var rest := claimed[1..];
      StrippedIsBehind(rest, group);
      if Behind(rest, group) {
        assert forall i :: 0 < i < |claimed| - |group| ==> claimed[i] == rest[i - 1];
      }
      if Behind(claimed, group) {
        assert |group| < |claimed|;
        assert forall i :: 0 <= i < |rest| - |group| ==> rest[i] == claimed[i + 1];
      }
    }
  }

  lemma GroupNamesAreClaimed(claims: Claims, group: string)
    ensures group in GroupNames(claims) <==> InGroup(claims, group)
  {
    forall claimed { StrippedIsBehind(claimed, group); }
  }

  lemma WithClaimsHasRole(user: User, claims: Claims)
    ensures HasRole(WithClaims(user, claims), claims)
    ensures WithClaims(user, claims).username == user.username && WithClaims(user, claims).active == user.active
  {
    forall group { GroupNamesAreClaimed(claims, group); }
  }

  /** Another user has kept its role and groups, and all the rest too unless it held the login's name: then
      it bears that name with the subject attached and is inactive. */
  predicate KeptOrArchived(before: User, after: User, username: string, sub: Option<string>) {
    after == before
    || (Lower(before.username) == Lower(username)
        && after == before.(username := before.username + "-" + sub.GetOr("None"), active := false))
  }

  /** The user returned by a login has the role and groups of its claims and no others, and is active if it
      is new; nobody else's role, groups or binding changes, and whoever else is renamed or deactivated
      held the login's name. */
  lemma LoginGivesRole(db: Db, username: string, claims: Claims)
    requires Consistent(db) && Attempt(db, username, claims).1.LoggedIn?
    ensures var (after, outcome) := Attempt(db, username, claims);
      && outcome.user in after.users && HasRole(after.users[outcome.user], claims)
      && after.users[outcome.user].active == (if outcome.user in db.users then db.users[outcome.user].active else true)
    ensures var (after, outcome) := Attempt(db, username, claims);
      forall u :: u in after.users && u != outcome.user ==>
        && u in db.users && KeptOrArchived(db.users[u], after.users[u], username, claims.sub)
        && (u in after.subjects <==> u in db.subjects) && (u in db.subjects ==> after.subjects[u] == db.subjects[u])
  {
    var bound := UserBySubject(db, claims.sub);
    if bound.Some? {
      UserBySubjectIsBound(db, claims.sub);
      UpdateGivesRole(db, bound.value, username, claims);
    } else {
      var archived := Archived(db, Holders(db, username, claims.sub), claims.sub);
      ArchivedKeepsOthers(db, username, claims.sub);
      ArchivedConsistent(db, username, claims.sub);
      CreateGivesRole(archived, username, claims);
      if NameTaken(archived, username) {
        NameHolderIsBound(db, username, claims.sub, UserByName(archived, username));
      }
    }
  }

  lemma UpdateGivesRole(db: Db, u: nat, username: string, claims: Claims)
    requires u in db.users && Updated(db, u, username, claims).1.LoggedIn?
    ensures var (after, outcome) := Updated(db, u, username, claims);
      && outcome.user == u && u in after.users && HasRole(after.users[u], claims)
      && after.users[u].active == db.users[u].active && after.subjects == db.subjects && after.users.Keys == db.users.Keys
      && forall v :: v in db.users && v != u ==> after.users[v] == db.users[v]
  {
    WithClaimsHasRole(db.users[u].(username := username), claims);
  }

  lemma CreateGivesRole(db: Db, username: string, claims: Claims)
    requires Consistent(db) && Created(db, username, claims).1.LoggedIn?
    ensures var (after, outcome) := Created(db, username, claims);
      && outcome.user in after.users && HasRole(after.users[outcome.user], claims)
      && outcome.user == (if NameTaken(db, username) then UserByName(db, username) else db.next)
      && after.users[outcome.user].active == (if NameTaken(db, username) then db.users[outcome.user].active else true)
    ensures var (after, outcome) := Created(db, username, claims);
      forall u :: u != outcome.user ==>
        && (u in after.users <==> u in db.users) && (u in after.users ==> after.users[u] == db.users[u])
        && (u in after.subjects <==> u in db.subjects) && (u in db.subjects ==> after.subjects[u] == db.subjects[u])
  {
    WithClaimsHasRole(if NameTaken(db, username) then db.users[UserByName(db, username)] else User(username, true, false, {}), claims);
  }

  lemma ArchivedKeepsOthers(db: Db, username: string, sub: Option<string>)
    ensures var after := Archived(db, Holders(db, username, sub), sub);
      forall u :: u in after.users ==>
        && u in db.users && KeptOrArchived(db.users[u], after.users[u], username, sub)
        && (Bound(db, u, sub) ==> after.users[u] == db.users[u])
        && (u in after.subjects <==> u in db.subjects) && (u in db.subjects ==> after.subjects[u] == db.subjects[u])
  {
  }

  /** The first login of a subject archives everybody else who holds the login's name, ignoring case; a later
      one leaves everybody else alone. */
  lemma HoldersMakeRoom(db: Db, username: string, claims: Claims, u: nat)
    requires Consistent(db) && OneUserPerSubject(db) && claims.sub.GetOr("") != ""
    requires Attempt(db, username, claims).1.LoggedIn? && u != Attempt(db, username, claims).1.user && u in db.users
    ensures var after := Attempt(db, username, claims).0;
      if exists v :: v in db.subjects && Lower(db.subjects[v]) == Lower(claims.sub.value)
      then u in after.users && after.users[u] == db.users[u]
      else Lower(db.users[u].username) == Lower(username) ==>
        u in after.users && !after.users[u].active
        && after.users[u].username == db.users[u].username + "-" + claims.sub.value
  {
    if v :| v in db.subjects && Lower(db.subjects[v]) == Lower(claims.sub.value) {
      BoundIsFound(db, claims.sub, v);
      UpdateGivesRole(db, v, username, claims);
    } else {
      assert forall v: nat :: !Bound(db, v, claims.sub);
      assert UserBySubject(db, claims.sub).None?;
      ArchivedConsistent(db, username, claims.sub);
      HoldersAreNotDoomed(db, username, claims.sub);
      CreateGivesRole(Archived(db, Holders(db, username, claims.sub), claims.sub), username, claims);
      NameIsFree(db, username, claims.sub);
      assert Lower(db.users[u].username) == Lower(username) ==> u in Holders(db, username, claims.sub);
    }
  }

  /** Who is deleted was in the way of archiving someone who held the login's name, and was not the subject's
      own user. */
  lemma DeletedWasInTheWay(db: Db, username: string, claims: Claims, u: nat)
    requires Consistent(db) && u in db.users && u !in Attempt(db, username, claims).0.users
    ensures !(u in db.subjects && claims.sub.Some? && Lower(db.subjects[u]) == Lower(claims.sub.value))
    ensures exists h :: (h in db.users && Lower(db.users[h].username) == Lower(username)
                         && db.users[u].username == db.users[h].username + "-" + claims.sub.GetOr("None"))
  {
    if UserBySubject(db, claims.sub).Some? {
      UserBySubjectIsBound(db, claims.sub);
    } else {
      assert u in Doomed(db, Holders(db, username, claims.sub), claims.sub);
    }
  }

  /** The claims of the last login in a run that returned the user. */
  ghost function LastLogin(db: Db, logins: seq<Claims>, u: nat): Option<Claims>
    requires Consistent(db)
  {
    if logins == [] then None
    else
      var init, claims := logins[..|logins| - 1], logins[|logins| - 1];
      if LoginName(claims).Some?
         && Attempt(AfterLogins(db, init), LoginName(claims).value, claims).1 == LoggedIn(u) then Some(claims)
      else LastLogin(db, init, u)
  }

  /** Over any run of logins a user has the role and groups of its last login, or those it started with. */
  lemma {:induction false} RolesFollowLogins(db: Db, logins: seq<Claims>, u: nat)
    requires Consistent(db) && u in AfterLogins(db, logins).users
    ensures var user := AfterLogins(db, logins).users[u];
      match LastLogin(db, logins, u)
      case Some(claims) => HasRole(user, claims)
      case None => u in db.users && user.admin == db.users[u].admin && user.groups == db.users[u].groups
  {
    if logins != [] {
      var init, claims := logins[..|logins| - 1], logins[|logins| - 1];
      var before := AfterLogins(db, init);
      if LoginName(claims).None? {
        RolesFollowLogins(db, init, u);
      } else {
        var username := LoginName(claims).value;
        if Attempt(before, username, claims).1.LoggedIn? {
          LoginGivesRole(before, username, claims);
        } else {
          FailedChangesNothing(before, username, claims);
        }
        if Attempt(before, username, claims).1 != LoggedIn(u) {
          RolesFollowLogins(db, init, u);
        }
      }
    }
  }

  lemma FailedChangesNothing(db: Db, username: string, claims: Claims)
    requires Consistent(db) && !Attempt(db, username, claims).1.LoggedIn?
    ensures Attempt(db, username, claims).0 == db
  {
    if UserBySubject(db, claims.sub).Some? {
      UserBySubjectIsBound(db, claims.sub);
    }
  }

  predicate GroupsClaimed(claims: Claims) {
    claims.groups.Some? || claims.serviceAccount
  }

  /** Somebody else has the name that the subject's user is to have. */
  ghost predicate NameConflict(db: Db, username: string, claims: Claims) {
    exists u, v :: u in db.subjects && v in db.users && claims.sub.Some? && Lower(db.subjects[u]) == Lower(claims.sub.value)
                   && db.users[v].username == username && u != v
  }

  /** A login whose subject is there and not empty succeeds exactly when it claims groups or is a service
      account's, and nobody has the very name of the subject's user, if there is one, but that user. */
  lemma LoginSucceedsIff(db: Db, username: string, claims: Claims)
    requires Consistent(db) && OneUserPerSubject(db) && claims.sub.GetOr("") != ""
    ensures match Attempt(db, username, claims).1
            case LoggedIn(_) => GroupsClaimed(claims) && !NameConflict(db, username, claims)
            case Suspicious => !GroupsClaimed(claims) && !NameConflict(db, username, claims)
            case IntegrityError => NameConflict(db, username, claims)
            case PermissionDenied => false
  {
    var bound := UserBySubject(db, claims.sub);
    if bound.Some? {
      UserBySubjectIsBound(db, claims.sub);
      assert forall u :: Bound(db, u, claims.sub) ==> u == bound.value;
    } else {
      NobodyBound(db, claims.sub);
      assert forall u :: u in db.subjects ==> !Bound(db, u, claims.sub);
      var archived := Archived(db, Holders(db, username, claims.sub), claims.sub);
      ArchivedConsistent(db, username, claims.sub);
      NameIsFree(db, username, claims.sub);
    }
  }

  /** With its retry a login whose subject is there and not empty succeeds exactly when groups are claimed or it
      is a service account's, and nobody is in the way of its name at the first attempt, or at the second,
      after whoever logged in between. */
  lemma RetrySucceedsIff(db: Db, username: string, claims: Claims, between: seq<Claims>)
    requires Consistent(db) && OneUserPerSubject(db) && claims.sub.GetOr("") != "" && forall c :: c in between ==> c.sub != Some("")
    ensures Retried(db, username, claims, between).1.LoggedIn?
       <==> GroupsClaimed(claims)
            && (!NameConflict(db, username, claims) || !NameConflict(AfterLogins(db, between), username, claims))
  {
    LoginSucceedsIff(db, username, claims);
    AttemptConsistent(db, username, claims);
    if NameConflict(db, username, claims) {
      FailedChangesNothing(db, username, claims);
      LoginsKeepIdentities(db, between);
      LoginSucceedsIff(AfterLogins(db, between), username, claims);
    }
  }

  /** A login goes by the username claimed, a service account's without one by its subject, and no other. */
  lemma LoginNameIs(claims: Claims, name: string)
    ensures LoginName(claims) == Some(name)
       <==> if claims.username != "" then name == claims.username
            else claims.serviceAccount && name == "svc-" + claims.sub.GetOr("None")
  {
  }

  // ---- empty subjects ------------------------------------------------------

  /** The subject claim is never checked. A login with an empty one keeps each subject with one user
      exactly when it fails, on a clash of archive names or for want of groups, or every user already
      bound to the empty subject bears the login's name. */
  lemma EmptySubjectLogin(db: Db, username: string, claims: Claims)
    requires Consistent(db) && OneUserPerSubject(db) && claims.sub == Some("")
    ensures OneUserPerSubject(Attempt(db, username, claims).0)
       <==> Clashes(db, Holders(db, username, Some("")), Some("")) || !GroupsGiven(claims)
            || forall u :: u in db.subjects && db.subjects[u] == "" ==> db.users[u].username == username
  {
    if !Clashes(db, Holders(db, username, Some("")), Some("")) && GroupsGiven(claims) {
      var db1 := Archived(db, Holders(db, username, Some("")), Some(""));
      ArchivedConsistent(db, username, Some(""));
      EmptyBindingsKept(db, username);
      if NameTaken(db1, username) {
        NameHolderIsBound(db, username, Some(""), UserByName(db1, username));
        LowerEmpty(db.subjects[UserByName(db1, username)]);
      }
      EmptySubjectCreated(db1, username, claims);
    }
  }

  lemma EmptyBindingsKept(db: Db, username: string)
    requires Consistent(db)
    ensures var db1 := Archived(db, Holders(db, username, Some("")), Some(""));
      forall u :: (u in db1.subjects && db1.subjects[u] == "" <==> u in db.subjects && db.subjects[u] == "")
        && (u in db.subjects && db.subjects[u] == "" ==> u in db1.users && db1.users[u] == db.users[u])
  {
    forall u | u in db.subjects { LowerEmpty(db.subjects[u]); }
  }

  lemma EmptySubjectCreated(db: Db, username: string, claims: Claims)
    requires Consistent(db) && OneUserPerSubject(db) && claims.sub == Some("") && GroupsGiven(claims)
    requires NameTaken(db, username) ==>
      UserByName(db, username) in db.subjects && db.subjects[UserByName(db, username)] == ""
    ensures OneUserPerSubject(Created(db, username, claims).0)
       <==> forall u :: u in db.subjects && db.subjects[u] == "" ==> db.users[u].username == username
  {
    var db' := Created(db, username, claims).0;
    if NameTaken(db, username) {
      var b := UserByName(db, username);
      assert db'.subjects == db.subjects;
      assert forall u :: u in db.subjects && db.subjects[u] == "" ==> u == b;
    } else {
      assert db.next !in db.users && db'.subjects == db.subjects[db.next := ""];
      if u :| u in db.subjects && db.subjects[u] == "" {
        assert u in db'.subjects && Lower(db'.subjects[u]) == Lower(db'.subjects[db.next]);
      } else {
        forall u | u in db.subjects
          ensures Lower(db.subjects[u]) != Lower("")
        {
          LowerEmpty(db.subjects[u]);
        }
      }
    }
  }

  lemma LowerEmpty(s: string)
    ensures Lower(s) == Lower("") <==> s == ""
  {
  }

  /** Whoever still has the name after archiving is bound to the subject. */
  lemma NameHolderIsBound(db: Db, username: string, sub: Option<string>, b: nat)
    requires Consistent(db)
    requires b in Archived(db, Holders(db, username, sub), sub).users
    requires Archived(db, Holders(db, username, sub), sub).users[b].username == username
    ensures Bound(db, b, sub)
  {
    var holders := Holders(db, username, sub);
    if b in holders {
      LowerLength(db.users[b].username, username);
    }
  }

  /** Two service accounts without a subject end up as two users bound to the same one. */
  lemma EmptySubjectsCollide()
    ensures
      var db := Db(map[0 := User("a", true, true, {})], map[0 := ""], 1);
      var claims := Claims(Some(""), "b", true, None);
      Consistent(db) && OneUserPerSubject(db) && Attempt(db, "b", claims).1.LoggedIn?
      && !OneUserPerSubject(Attempt(db, "b", claims).0)
  {
    var db := Db(map[0 := User("a", true, true, {})], map[0 := ""], 1);
    var claims := Claims(Some(""), "b", true, None);
    assert Bound(db, 0, Some(""));
    assert Holders(db, "b", Some("")) == {};
    var db1 := Archived(db, {}, Some(""));
    assert db1.users == db.users && db1.subjects == db.subjects;
    assert !NameTaken(db1, "b");
    EmptySubjectLogin(db, "b", claims);
    assert db.users[0].username != "b";
  }

  // ---- archiving one user at a time ----------------------------------------

  /** Users holding an archive name without being bound to the subject. */
  function InTheWay(db: Db, name: string, sub: Option<string>): set<nat> {
    set u | u in db.users && !Bound(db, u, sub) && db.users[u].username == name
  }

  /** Archiving one holder: whoever has the archive name goes, then the holder is renamed. */
  function ArchivedOne(db: Db, h: nat, sub: Option<string>): Db
    requires h in db.users
  {
    var name := ArchivedName(db.users[h].username, sub);
    Db((db.users - InTheWay(db, name, sub))[h := db.users[h].(username := name, active := false)],
       db.subjects - InTheWay(db, name, sub), db.next)
  }

  /** Holders still to be archived are untouched so far, and no archived one has their archive name. */
  lemma HolderUntouched(db: Db, username: string, sub: Option<string>, done: set<nat>, h: nat)
    requires Consistent(db) && done <= Holders(db, username, sub) && h in Holders(db, username, sub) && h !in done
    ensures h in Archived(db, done, sub).users && Archived(db, done, sub).users[h] == db.users[h]
    ensures h !in InTheWay(Archived(db, done, sub), ArchivedName(db.users[h].username, sub), sub)
  {
    HoldersAreNotDoomed(db, username, sub);
    assert Doomed(db, done, sub) <= Doomed(db, Holders(db, username, sub), sub);
    assert !Bound(db, h, sub);
    LowerLength(db.users[h].username, username);
  }

  lemma ArchiveNamesApart(db: Db, username: string, sub: Option<string>, done: set<nat>, h: nat)
    requires Consistent(db) && done <= Holders(db, username, sub) && h in Holders(db, username, sub) && h !in done
    ensures forall u :: u in done ==> u in Archived(db, done, sub).users
    ensures forall u :: u in done ==> Archived(db, done, sub).users[u].username != ArchivedName(db.users[h].username, sub)
  {
    HoldersAreNotDoomed(db, username, sub);
    assert Doomed(db, done, sub) <= Doomed(db, Holders(db, username, sub), sub);
    forall u | u in done
      ensures ArchivedName(db.users[u].username, sub) != ArchivedName(db.users[h].username, sub)
    {
      var a, b := db.users[u].username, db.users[h].username;
      assert ArchivedName(a, sub)[..|a|] == a && ArchivedName(b, sub)[..|b|] == b;
      LowerLength(a, username);
      LowerLength(b, username);
    }
  }

  lemma DoomedOneMore(db: Db, username: string, sub: Option<string>, done: set<nat>, h: nat)
    requires Consistent(db) && done <= Holders(db, username, sub) && h in Holders(db, username, sub) && h !in done
    ensures Doomed(db, done + {h}, sub)
         == Doomed(db, done, sub) + InTheWay(Archived(db, done, sub), ArchivedName(db.users[h].username, sub), sub)
  {
    DoomedByOne(db, done, h, sub);
    InTheWayNow(db, username, sub, done, h);
  }

  /** Archiving other holders changes who is in the way only by deleting. */
  lemma InTheWayNow(db: Db, username: string, sub: Option<string>, done: set<nat>, h: nat)
    requires Consistent(db) && done <= Holders(db, username, sub) && h in Holders(db, username, sub) && h !in done
    ensures InTheWay(Archived(db, done, sub), ArchivedName(db.users[h].username, sub), sub)
         == InTheWay(db, ArchivedName(db.users[h].username, sub), sub) - Doomed(db, done, sub)
  {
    var name := ArchivedName(db.users[h].username, sub);
    ArchiveNamesApart(db, username, sub, done, h);
    forall u | u in InTheWay(db, name, sub) { NotAHolder(db, username, sub, h, u); }
  }

  lemma DoomedByOne(db: Db, done: set<nat>, h: nat, sub: Option<string>)
    requires done + {h} <= db.users.Keys
    ensures Doomed(db, done + {h}, sub) == Doomed(db, done, sub) + InTheWay(db, ArchivedName(db.users[h].username, sub), sub)
  {
  }

  /** A user in the way of archiving a holder is none of the holders. */
  lemma NotAHolder(db: Db, username: string, sub: Option<string>, h: nat, u: nat)
    requires h in Holders(db, username, sub) && u in InTheWay(db, ArchivedName(db.users[h].username, sub), sub)
    ensures u !in Holders(db, username, sub)
  {
    LowerLength(db.users[h].username, username);
    if u in Holders(db, username, sub) {
      LowerLength(db.users[u].username, username);
    }
  }

  lemma ArchiveOneMore(db: Db, username: string, sub: Option<string>, done: set<nat>, h: nat)
    requires Consistent(db) && done <= Holders(db, username, sub) && h in Holders(db, username, sub) && h !in done
    ensures h in Archived(db, done, sub).users
    ensures Archived(db, done + {h}, sub) == ArchivedOne(Archived(db, done, sub), h, sub)
  {
    HoldersExist(db, username, sub);
    HolderUntouched(db, username, sub, done, h);
    DoomedOneMore(db, username, sub, done, h);
    UsersOneMore(db, done, h, sub);
  }

  lemma UsersOneMore(db: Db, done: set<nat>, h: nat, sub: Option<string>)
    requires done + {h} <= db.users.Keys && h !in done
    requires h in Archived(db, done, sub).users && Archived(db, done, sub).users[h] == db.users[h]
    requires h !in InTheWay(Archived(db, done, sub), ArchivedName(db.users[h].username, sub), sub)
    requires Doomed(db, done + {h}, sub)
          == Doomed(db, done, sub) + InTheWay(Archived(db, done, sub), ArchivedName(db.users[h].username, sub), sub)
    ensures ArchivedOne(Archived(db, done, sub), h, sub) == Archived(db, done + {h}, sub)
  {
    var name := ArchivedName(db.users[h].username, sub);
    var now, way := Archived(db, done, sub), InTheWay(Archived(db, done, sub), name, sub);
    var one, more := ArchivedOne(now, h, sub), Archived(db, done + {h}, sub);
    forall u
      ensures u in one.users <==> u in more.users
      ensures u in more.users ==> one.users[u] == more.users[u]
    {
      UserOneMore(db, done, h, sub, way, u);
    }
    SameUsers(one.users, more.users);
    SubjectsOneMore(db.subjects, Doomed(db, done, sub), way);
  }

  lemma SameUsers(a: map<nat, User>, b: map<nat, User>)
    requires forall u :: u in a <==> u in b
    requires forall u :: u in b ==> a[u] == b[u]
    ensures a == b
  {
  }

  lemma SubjectsOneMore(subjects: map<nat, string>, doomed: set<nat>, way: set<nat>)
    ensures subjects - doomed - way == subjects - (doomed + way)
  {
  }

  lemma HoldersExist(db: Db, username: string, sub: Option<string>)
    ensures Holders(db, username, sub) <= db.users.Keys
  {
  }

  lemma UserOneMore(db: Db, done: set<nat>, h: nat, sub: Option<string>, way: set<nat>, u: nat)
    requires done + {h} <= db.users.Keys && h !in done
    requires h in Archived(db, done, sub).users && Archived(db, done, sub).users[h] == db.users[h]
    requires way == InTheWay(Archived(db, done, sub), ArchivedName(db.users[h].username, sub), sub) && h !in way
    requires Doomed(db, done + {h}, sub) == Doomed(db, done, sub) + way
    ensures u in ArchivedOne(Archived(db, done, sub), h, sub).users <==> u in Archived(db, done + {h}, sub).users
    ensures u in Archived(db, done + {h}, sub).users ==>
      ArchivedOne(Archived(db, done, sub), h, sub).users[u] == Archived(db, done + {h}, sub).users[u]
  {
  }

  /** The rename is blocked exactly when the archive name clashes. */
  lemma ClashOneMore(db: Db, username: string, sub: Option<string>, done: set<nat>, h: nat)
    requires Consistent(db) && done <= Holders(db, username, sub) && h in Holders(db, username, sub) && h !in done
    requires !Clashes(db, done, sub)
    ensures Clashes(db, done + {h}, sub)
       <==> Blocked(Archived(db, done, sub), ArchivedName(db.users[h].username, sub), sub)
  {
    BlockedStill(db, username, sub, done, ArchivedName(db.users[h].username, sub));
  }

  /** Archiving frees no name of a user of the same identity and takes none for them. */
  lemma BlockedStill(db: Db, username: string, sub: Option<string>, done: set<nat>, name: string)
    requires Consistent(db) && done <= Holders(db, username, sub)
    ensures Blocked(Archived(db, done, sub), name, sub) <==> Blocked(db, name, sub)
  {
    forall u { BoundUntouched(db, username, sub, done, u); }
    var now := Archived(db, done, sub);
    if u :| u in db.users && Bound(db, u, sub) && db.users[u].username == name {
      assert u in now.users && Bound(now, u, sub) && now.users[u].username == name;
    }
  }

  lemma BoundUntouched(db: Db, username: string, sub: Option<string>, done: set<nat>, u: nat)
    requires Consistent(db) && done <= Holders(db, username, sub)
    ensures Bound(Archived(db, done, sub), u, sub) <==> Bound(db, u, sub)
    ensures Bound(db, u, sub) ==> u in Archived(db, done, sub).users && Archived(db, done, sub).users[u] == db.users[u]
  {
  }

  lemma ArchiveStep(db: Db, username: string, sub: Option<string>, done: set<nat>, h: nat)
    requires Consistent(db) && done <= Holders(db, username, sub) && h in Holders(db, username, sub) && h !in done
    requires !Clashes(db, done, sub)
    ensures var now := Archived(db, done, sub);
      && h in now.users
      && Archived(db, done + {h}, sub) == ArchivedOne(now, h, sub)
      && (Clashes(db, done + {h}, sub) <==> Blocked(now, ArchivedName(now.users[h].username, sub), sub))
    ensures Clashes(db, done + {h}, sub) ==> Clashes(db, Holders(db, username, sub), sub)
  {
    HolderUntouched(db, username, sub, done, h);
    ArchiveOneMore(db, username, sub, done, h);
    ClashOneMore(db, username, sub, done, h);
    assert done + {h} <= Holders(db, username, sub);
  }

  // ---- the authentication backend ------------------------------------------

  class Backend {
    var users: map<nat, User>
    var subjects: map<nat, string>
    var next: nat

    function Current(): Db
      reads this
    {
      Db(users, subjects, next)
    }

    method GetUserByOidcId(sub: Option<string>) returns (user: Option<nat>)
      ensures user == UserBySubject(Current(), sub)
    {
      user := None;
      if sub.GetOr("") != "" {
        var ids := BoundUsers(Current(), sub);
        if |ids| == 1 {
          var u :| u in ids;
          OnlyElement(ids, u);
          user := Some(u);
        }
      }
    }

    /** `archive_old_user`; stops where a rename would repeat a username. */
    method ArchiveOldUser(username: string, sub: Option<string>) returns (clash: bool)
      requires Consistent(Current())
      modifies this
      ensures clash <==> Clashes(old(Current()), Holders(old(Current()), username, sub), sub)
      ensures !clash ==> Current() == Archived(old(Current()), Holders(old(Current()), username, sub), sub)
    {
      ghost var start := Current();
      var todo := Holders(Current(), username, sub);
      ghost var done: set<nat>, all := {}, todo;
      ArchivedNone(start, sub);
      while todo != {}
        invariant done + todo == all && done !! todo
        invariant Current() == Archived(start, done, sub) && !Clashes(start, done, sub)
        decreases todo
      {
        var h :| h in todo;
        ArchiveStep(start, username, sub, done, h);
        clash := ArchiveUser(h, sub);
        if clash {
          return;
        }
        done, todo := done + {h}, todo - {h};
      }
      clash := false;
    }

    /** One turn of the loop: frees the archive name, then renames and deactivates the user. */
    method ArchiveUser(h: nat, sub: Option<string>) returns (clash: bool)
      requires h in users
      modifies this
      ensures clash <==> Blocked(old(Current()), ArchivedName(old(users)[h].username, sub), sub)
      ensures !clash ==> Current() == ArchivedOne(old(Current()), h, sub)
    {
      var name := ArchivedName(users[h].username, sub);
      var user, doomed := users[h], InTheWay(Current(), name, sub);
      users, subjects := users - doomed, subjects - doomed;
      clash := NameTaken(Current(), name);
      if u :| u in old(users) && Bound(old(Current()), u, sub) && old(users)[u].username == name {
        assert u in users && users[u].username == name;
      }
      if !clash {
        users := users[h := user.(username := name, active := false)];
      }
    }

    method UpdateUser(u: nat, username: string, claims: Claims) returns (outcome: Outcome)
      requires u in users
      modifies this
      ensures outcome == Updated(old(Current()), u, username, claims).1
      ensures outcome.LoggedIn? ==> Current() == Updated(old(Current()), u, username, claims).0
    {
      if users[u].username != username {
        if NameTaken(Current(), username) {
          return IntegrityError;
        }
        users := users[u := users[u].(username := username)];
      }
      if !GroupsGiven(claims) {
        return Suspicious;
      }
      users := users[u := WithClaims(users[u], claims)];
      outcome := LoggedIn(u);
    }

    method CreateUser(username: string, claims: Claims) returns (outcome: Outcome)
      requires Consistent(Current())
      modifies this
      ensures outcome == Created(old(Current()), username, claims).1
      ensures outcome.LoggedIn? ==> Current() == Created(old(Current()), username, claims).0
    {
      var u;
      if NameTaken(Current(), username) {
        u :| u in users && users[u].username == username;
      } else {
        u := next;
        users := users[u := User(username, true, false, {})];
        next := next + 1;
      }
      if !GroupsGiven(claims) {
        return Suspicious;
      }
      users := users[u := WithClaims(users[u], claims)];
      if u !in subjects {
        if claims.sub.None? {
          return IntegrityError;
        }
        subjects := subjects[u := claims.sub.value];
      } else if Some(subjects[u]) != claims.sub {
        return PermissionDenied;
      }
      outcome := LoggedIn(u);
    }

    /** One transaction of `get_or_create_user`. */
    method TryLogin(username: string, claims: Claims) returns (outcome: Outcome)
      requires Consistent(Current())
      modifies this
      ensures (Current(), outcome) == Attempt(old(Current()), username, claims)
    {
      var users0, subjects0, next0 := users, subjects, next;
      var known := GetUserByOidcId(claims.sub);
      if known.Some? {
        UserBySubjectIsBound(Current(), claims.sub);
        outcome := UpdateUser(known.value, username, claims);
      } else {
        var clash := ArchiveOldUser(username, claims.sub);
        if clash {
          outcome := IntegrityError;
        } else {
          ArchivedConsistent(old(Current()), username, claims.sub);
          outcome := CreateUser(username, claims);
        }
      }
      if !outcome.LoggedIn? {
        users, subjects, next := users0, subjects0, next0;
      }
    }

    /** Logins of others, retries among them. */
    method OthersLogIn(logins: seq<Claims>)
      requires Consistent(Current())
      modifies this
      ensures Consistent(Current()) && Current() == AfterLogins(old(Current()), logins)
    {
      for n := 0 to |logins|
        invariant Consistent(Current()) && Current() == AfterLogins(old(Current()), logins[..n])
      {
        assert logins[..n + 1][..n] == logins[..n];
        if LoginName(logins[n]).Some? {
          AttemptConsistent(Current(), LoginName(logins[n]).value, logins[n]);
          var outcome := TryLogin(LoginName(logins[n]).value, logins[n]);
        }
      }
      assert logins[..|logins|] == logins;
    }

    /** `get_or_create_user`; the logins `between` come between its two attempts. */
    method GetOrCreateUser(claims: Claims, between: seq<Claims>) returns (outcome: Outcome)
      requires Consistent(Current())
      modifies this
      ensures Consistent(Current())
      ensures LoginName(claims).None? ==> outcome == Suspicious && Current() == old(Current())
      ensures LoginName(claims).Some? ==>
        (Current(), outcome) == Retried(old(Current()), LoginName(claims).value, claims, between)
    {
      if LoginName(claims).None? {
        return Suspicious;
      }
      var username := LoginName(claims).value;
      AttemptConsistent(Current(), username, claims);
      outcome := TryLogin(username, claims);
      if outcome == IntegrityError {
        OthersLogIn(between);
        AttemptConsistent(Current(), username, claims);
        outcome := TryLogin(username, claims);
      }
    }
  }

  lemma OnlyElement(ids: set<nat>, u: nat)
    requires |ids| == 1 && u in ids
    ensures forall v :: v in ids ==> v == u
  {
    forall v | v in ids
      ensures v == u
    {
      assert |ids - {u}| == 0;
    }
  }

  lemma ArchivedNone(db: Db, sub: Option<string>)
    requires Consistent(db)
    ensures Archived(db, {}, sub) == db && !Clashes(db, {}, sub)
  {
  }
}
