/**
 * The session state machine: logging a registered user in and out,
 * guarded first by registry membership and then by online membership.
 */
module Users {
  import opened Wrappers
  import opened Store

  datatype UserError =
    | UsernameNotFound(username: string)
    | AlreadyLoggedIn(username: string)
    | NotLoggedIn(username: string)

  /** SUNION regular_users admin_users. */
  function Registered(ks: Keyspace): set<string> {
    ks.regularUsers + ks.adminUsers
  }

  function LoggedInEvent(username: string): string {
    username + " has logged in."
  }

  function LoggedOutEvent(username: string): string {
    username + " has logged out."
  }

  /** What a login does to the store: only the online set and the journal channel can change. */
  function Login(ks: Keyspace, username: string): (t: Transition<Outcome<UserError>>)
    ensures t.outcome == Fail(UsernameNotFound(username)) <==> username !in Registered(ks)
    ensures t.outcome == Fail(AlreadyLoggedIn(username)) <==>
              username in Registered(ks) && username in ks.onlineUsers
    ensures t.outcome == Pass <==> username in Registered(ks) && username !in ks.onlineUsers
    ensures t.outcome.Fail? ==> t.after == ks
    ensures t.outcome == Pass ==>
              t.after.onlineUsers == ks.onlineUsers + {username} &&
              t.after.journalChannel == ks.journalChannel + [LoggedInEvent(username)]
    ensures t.after == ks.(onlineUsers := t.after.onlineUsers, journalChannel := t.after.journalChannel)
  {
    if username !in Registered(ks) then
      Transition(ks, Fail(UsernameNotFound(username)))
    else if username in ks.onlineUsers then
      Transition(ks, Fail(AlreadyLoggedIn(username)))
    else
      var published := ks.(journalChannel := ks.journalChannel + [LoggedInEvent(username)]);
      Transition(published.(onlineUsers := published.onlineUsers + {username}), Pass)
  }

  /** What a logout does to the store: only the online set and the journal channel can change. */
  function Logout(ks: Keyspace, username: string): (t: Transition<Outcome<UserError>>)
    ensures t.outcome == Fail(UsernameNotFound(username)) <==> username !in Registered(ks)
    ensures t.outcome == Fail(NotLoggedIn(username)) <==>
              username in Registered(ks) && username !in ks.onlineUsers
    ensures t.outcome == Pass <==> username in Registered(ks) && username in ks.onlineUsers
    ensures t.outcome.Fail? ==> t.after == ks
    ensures t.outcome == Pass ==>
              t.after.onlineUsers == ks.onlineUsers - {username} &&
              t.after.journalChannel == ks.journalChannel + [LoggedOutEvent(username)]
    ensures t.after == ks.(onlineUsers := t.after.onlineUsers, journalChannel := t.after.journalChannel)
  {
    if username !in Registered(ks) then
      Transition(ks, Fail(UsernameNotFound(username)))
    else if username !in ks.onlineUsers then
      Transition(ks, Fail(NotLoggedIn(username)))
    else
      var published := ks.(journalChannel := ks.journalChannel + [LoggedOutEvent(username)]);
      Transition(published.(onlineUsers := published.onlineUsers - {username}), Pass)
  }

  /** login_user: check, publish the login event, then SADD to the online set. */
  method LoginUser(r: Redis, username: string) returns (res: Outcome<UserError>)
    modifies r
    ensures Transition(r.Snapshot(), res) == Login(old(r.Snapshot()), username)
  {
    if username !in r.regularUsers + r.adminUsers {
      return Fail(UsernameNotFound(username));
    } else if username in r.onlineUsers {
      return Fail(AlreadyLoggedIn(username));
    }
    r.journalChannel := r.journalChannel + [LoggedInEvent(username)];
    r.onlineUsers := r.onlineUsers + {username};
    res := Pass;
  }

  /** logout_user: check, publish the logout event, then SREM from the online set. */
  method LogoutUser(r: Redis, username: string) returns (res: Outcome<UserError>)
    modifies r
    ensures Transition(r.Snapshot(), res) == Logout(old(r.Snapshot()), username)
  {
    if username !in r.regularUsers + r.adminUsers {
      return Fail(UsernameNotFound(username));
    } else if username !in r.onlineUsers {
      return Fail(NotLoggedIn(username));
    }
    r.journalChannel := r.journalChannel + [LoggedOutEvent(username)];
    r.onlineUsers := r.onlineUsers - {username};
    res := Pass;
  }

  /** Logging in and then out again restores the online set and leaves two journal entries. */
  lemma LoginThenLogout(ks: Keyspace, username: string)
    requires Login(ks, username).outcome == Pass
    ensures var t := Logout(Login(ks, username).after, username);
      && t.outcome == Pass
      && t.after.onlineUsers == ks.onlineUsers
      && t.after.journalChannel == ks.journalChannel + [LoggedInEvent(username), LoggedOutEvent(username)]
      && t.after == ks.(journalChannel := t.after.journalChannel)
  {
  }

  /** A second login of the same user is rejected and changes nothing. */
  lemma SecondLoginRejected(ks: Keyspace, username: string)
    requires Login(ks, username).outcome == Pass
    ensures var t := Login(Login(ks, username).after, username);
      t.outcome == Fail(AlreadyLoggedIn(username)) && t.after == Login(ks, username).after
  {
  }

  /** Only registered users are ever online: login and logout keep that invariant. */
  lemma OnlineStaysRegistered(ks: Keyspace, username: string)
    requires ks.onlineUsers <= Registered(ks)
    ensures Login(ks, username).after.onlineUsers <= Registered(Login(ks, username).after)
    ensures Logout(ks, username).after.onlineUsers <= Registered(Logout(ks, username).after)
  {
  }
}
