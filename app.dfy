/**
 * The HTTP request handlers, without the web framework: required-field
 * validation, the mapping of domain errors to status codes, and the
 * read-only queries over the store.
 */
module App {
  import opened Wrappers
  import opened RedisCommands
  import opened Store
  import Lists
  import Users
  import Messages
  import Seeding

  /** A reply: 200 with a body, or an abort with an error status. */
  datatype Response<+T> = Ok(body: T) | Abort(status: int)

  /** A request field counts as given when it is present and not empty. */
  predicate Present(field: Option<string>) {
    field.Some? && field.value != ""
  }

  /** POST /login. */
  method Login(r: Redis, username: Option<string>) returns (resp: Response<string>)
    modifies r
    ensures !Present(username) ==> resp == Abort(422) && r.Snapshot() == old(r.Snapshot())
    ensures Present(username) ==> r.Snapshot() == Users.Login(old(r.Snapshot()), username.value).after
    ensures Present(username) && username.value !in Users.Registered(old(r.Snapshot())) ==>
              resp == Abort(404)
    ensures Present(username) && username.value in Users.Registered(old(r.Snapshot())) ==>
              resp == if username.value in old(r.onlineUsers) then Abort(418) else Ok("Logged in.")
  {
    if !Present(username) {
      return Abort(422);
    }
    var outcome := Users.LoginUser(r, username.value);
    if outcome.Fail? && outcome.error.UsernameNotFound? {
      resp := Abort(404);
    } else if outcome.Fail? && outcome.error.AlreadyLoggedIn? {
      resp := Abort(418);
    } else if outcome.Fail? {
      resp := Abort(500);  // any other error escapes the handler
    } else {
      resp := Ok("Logged in.");
    }
  }

  /** POST /logout. */
  method Logout(r: Redis, username: Option<string>) returns (resp: Response<string>)
    modifies r
    ensures !Present(username) ==> resp == Abort(422) && r.Snapshot() == old(r.Snapshot())
    ensures Present(username) ==> r.Snapshot() == Users.Logout(old(r.Snapshot()), username.value).after
    ensures Present(username) && username.value !in Users.Registered(old(r.Snapshot())) ==>
              resp == Abort(404)
    ensures Present(username) && username.value in Users.Registered(old(r.Snapshot())) ==>
              resp == if username.value in old(r.onlineUsers) then Ok("Logged out.") else Abort(418)
  {
    if !Present(username) {
      return Abort(422);
    }
    var outcome := Users.LogoutUser(r, username.value);
    if outcome.Fail? && outcome.error.UsernameNotFound? {
      resp := Abort(404);
    } else if outcome.Fail? && outcome.error.NotLoggedIn? {
      resp := Abort(418);
    } else if outcome.Fail? {
      resp := Abort(500);  // any other error escapes the handler
    } else {
      resp := Ok("Logged out.");
    }
  }

  /**
   * POST /message. A missing field aborts before anything is written; otherwise
   * the message is created and echoed back with its new id. An error raised by
   * the creation is not caught and becomes a 500.
   */
  method SendMessage(r: Redis, sender: Option<string>, recipient: Option<string>, content: Option<string>)
    returns (resp: Response<Message>)
    modifies r
    ensures !(Present(sender) && Present(recipient) && Present(content)) ==>
              resp == Abort(422) && r.Snapshot() == old(r.Snapshot())
    ensures Present(sender) && Present(recipient) && Present(content) ==>
              var t := Messages.Create(old(r.Snapshot()), RawMessage(sender.value, recipient.value, content.value));
              && r.Snapshot() == t.after
              && resp == match t.outcome
                         case Success(id) => Ok(Message(id, sender.value, recipient.value, content.value))
                         case Failure(_) => Abort(500)
  {
    if !Present(sender) || !Present(recipient) || !Present(content) {
      return Abort(422);
    }
    var message := RawMessage(sender.value, recipient.value, content.value);
    var created := Messages.CreateMessage(r, message);
    match created
    case Success(id) => resp := Ok(WithId(id, message));
    case Failure(_) => resp := Abort(500);
  }

  /** SINTER of the user's inbound ids and the delivered set. */
  function InboundIds(ks: Keyspace, username: string): set<int> {
    InboundOf(ks, username) * ks.delivered
  }

  /** `msgs` lists each id of `ids` exactly once, with the body stored under it. */
  predicate Hydrates(msgs: seq<Message>, ids: set<int>, stored: map<int, RawMessage>) {
    && |msgs| == |ids|
    && (forall i :: 0 <= i < |msgs| ==>
          msgs[i].id in ids && msgs[i].id in stored && msgs[i] == WithId(msgs[i].id, stored[msgs[i].id]))
    && (forall i, j :: 0 <= i < j < |msgs| ==> msgs[i].id != msgs[j].id)
  }

  /**
   * HMGET of the ids in the set's iteration order, then the loop that decodes
   * each body and sets its id. A missing body decodes to an error (a 500).
   */
  method HydrateInbound(ids: set<int>, stored: map<int, RawMessage>) returns (res: Response<seq<Message>>)
    ensures res.Abort? <==> !(ids <= stored.Keys)
    ensures res.Abort? ==> res.status == 500
    ensures res.Ok? ==> Hydrates(res.body, ids, stored)
  {
    var order := Lists.ToList(ids);
    var response: seq<Message> := [];
    for k := 0 to |order|
      invariant |response| == k
      invariant forall i :: 0 <= i < k ==>
                  order[i] in stored && response[i] == WithId(order[i], stored[order[i]])
    {
      if order[k] !in stored {
        return Abort(500);
      }
      response := response + [WithId(order[k], stored[order[k]])];
    }
    res := Ok(response);
  }

  /**
   * GET /inbound-messages as written: with no delivered inbound message, HMGET
   * is called with no field at all, which raises, so the reply is a 500.
   */
  method GetInboundMessagesAsWritten(ks: Keyspace, username: string) returns (res: Response<seq<Message>>)
    ensures InboundIds(ks, username) == {} ==> res == Abort(500)
    ensures InboundIds(ks, username) != {} ==>
              (res.Abort? <==> !(InboundIds(ks, username) <= ks.messages.Keys)) &&
              (res.Ok? ==> Hydrates(res.body, InboundIds(ks, username), ks.messages))
  {
    var ids := InboundIds(ks, username);
    if ids == {} {
      return Abort(500);
    }
    res := HydrateInbound(ids, ks.messages);
  }

  /** GET /inbound-messages: every delivered inbound message, each carrying its own id. */
  method GetInboundMessages(ks: Keyspace, username: string) returns (res: Response<seq<Message>>)
    ensures InboundIds(ks, username) == {} ==> res == Ok([])
    ensures res.Abort? <==> !(InboundIds(ks, username) <= ks.messages.Keys)
    ensures res.Ok? ==> Hydrates(res.body, InboundIds(ks, username), ks.messages)
  {
    res := HydrateInbound(InboundIds(ks, username), ks.messages);
  }

  datatype UserStats = UserStats(delivered: nat, enqueued: nat, markedAsSpam: nat, beingSpamChecked: nat)

  /** GET /user-stats: how many of the user's outbound messages sit in each status set. */
  function GetMessageStats(ks: Keyspace, username: string): (s: UserStats)
    ensures s.delivered <= |OutboundOf(ks, username)| && s.delivered <= |ks.delivered|
    ensures s.enqueued <= |OutboundOf(ks, username)| && s.enqueued <= |ks.enqueued|
    ensures s.markedAsSpam <= |OutboundOf(ks, username)| && s.markedAsSpam <= |ks.spam|
    ensures s.beingSpamChecked <= |OutboundOf(ks, username)| && s.beingSpamChecked <= |ks.beingChecked|
  {
    var out := OutboundOf(ks, username);
    IntersectionBounded(out, ks.delivered);
    IntersectionBounded(out, ks.enqueued);
    IntersectionBounded(out, ks.spam);
    IntersectionBounded(out, ks.beingChecked);
    UserStats(|out * ks.delivered|, |out * ks.enqueued|, |out * ks.spam|, |out * ks.beingChecked|)
  }

  lemma IntersectionBounded(a: set<int>, b: set<int>)
    ensures |a * b| <= |a| && |a * b| <= |b|
  {
    assert a == (a * b) + (a - b);
    DisjointUnionSize(a * b, a - b);
    assert b == (a * b) + (b - a);
    DisjointUnionSize(a * b, b - a);
  }

  lemma DisjointUnionSize(a: set<int>, b: set<int>)
    requires a !! b
    ensures |a + b| == |a| + |b|
  {
  }

  /** No message is in two status sets. */
  predicate StatusSetsDisjoint(ks: Keyspace) {
    && ks.enqueued !! ks.beingChecked && ks.enqueued !! ks.spam && ks.enqueued !! ks.delivered
    && ks.beingChecked !! ks.spam && ks.beingChecked !! ks.delivered
    && ks.spam !! ks.delivered
  }

  function StatusSets(ks: Keyspace): set<int> {
    ks.enqueued + ks.beingChecked + ks.spam + ks.delivered
  }

  function Total(s: UserStats): nat {
    s.delivered + s.enqueued + s.markedAsSpam + s.beingSpamChecked
  }

  /**
   * When the status sets are mutually exclusive, the four counts never exceed
   * the number of messages the user sent, and they add up to exactly that
   * number once every sent message has a status.
   */
  lemma StatsAccountForOutbound(ks: Keyspace, username: string)
    requires StatusSetsDisjoint(ks)
    ensures Total(GetMessageStats(ks, username)) <= |OutboundOf(ks, username)|
    ensures OutboundOf(ks, username) <= StatusSets(ks) ==>
              Total(GetMessageStats(ks, username)) == |OutboundOf(ks, username)|
  {
    var out := OutboundOf(ks, username);
    var d, e, s, b := out * ks.delivered, out * ks.enqueued, out * ks.spam, out * ks.beingChecked;
    DisjointUnionSize(d, e);
    DisjointUnionSize(d + e, s);
    DisjointUnionSize(d + e + s, b);
    assert d + e + s + b == out * StatusSets(ks);
    IntersectionBounded(out, StatusSets(ks));
    if out <= StatusSets(ks) {
      assert out * StatusSets(ks) == out;
    }
  }

  predicate NonIncreasing(r: seq<ScoredMember>) {
    forall i, j :: 0 <= i < j < |r| ==> r[i].score >= r[j].score
  }

  /** ZRANGE key 0 -1 WITHSCORES, read backwards: the whole ranking, highest score first. */
  function Descending(z: SortedSet): (r: seq<ScoredMember>)
    ensures r == Lists.Reverse(z)
    ensures NonIncreasing(r)
  {
    Lists.Reverse(ZRange(z, 0, -1))
  }

  /** GET /spammer-stats: the spam ranking, highest score first. */
  function GetSpammerStats(ks: Keyspace): (r: seq<ScoredMember>)
    ensures r == Lists.Reverse(ks.spamScores)
    ensures NonIncreasing(r)
  {
    Descending(ks.spamScores)
  }

  /** GET /chatter-stats: the delivered-messages ranking, highest score first. */
  function GetHighestActivityStats(ks: Keyspace): (r: seq<ScoredMember>)
    ensures r == Lists.Reverse(ks.deliveredScores)
    ensures NonIncreasing(r)
  {
    Descending(ks.deliveredScores)
  }

  /** GET /online-users: every online user exactly once. */
  method GetOnlineUsers(ks: Keyspace) returns (users: seq<string>)
    ensures forall u :: u in users <==> u in ks.onlineUsers
    ensures |users| == |ks.onlineUsers|
    ensures forall i, j :: 0 <= i < j < |users| ==> users[i] != users[j]
  {
    users := Lists.ToList(ks.onlineUsers);
  }

  /** GET /event-journal: LRANGE 0 -1 of the journal list, the whole list in stored order. */
  function GetEventJournal(ks: Keyspace): (events: seq<string>)
    ensures events == ks.journalList
  {
    Range(ks.journalList, 0, -1)
  }

  /**
   * On a freshly seeded store: an unknown name cannot log in; Alice logs in,
   * cannot log in again, logs out, and cannot log out again.
   */
  lemma SeededSessionScenario()
    ensures var s0 := Seeding.Seed(Empty);
      var s1 := Users.Login(s0, "Alice");
      var s2 := Users.Logout(s1.after, "Alice");
      && Users.Login(s0, "ghost").outcome == Fail(Users.UsernameNotFound("ghost"))
      && s1.outcome == Pass && "Alice" in s1.after.onlineUsers
      && Users.Login(s1.after, "Alice").outcome == Fail(Users.AlreadyLoggedIn("Alice"))
      && s2.outcome == Pass && "Alice" !in s2.after.onlineUsers
      && Users.Logout(s2.after, "Alice").outcome == Fail(Users.NotLoggedIn("Alice"))
  {
  }

  /** Seeding does not create the message counter, so on a fresh store every message creation fails. */
  lemma SeededStoreHasNoCounter(m: RawMessage)
    ensures Messages.Create(Seeding.Seed(Empty), m).outcome == Failure(Messages.CounterMissing)
  {
  }
}
