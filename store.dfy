/**
 * The backing store: the Redis keys the messaging backend reads and
 * writes, as a class whose fields are updated in place, and the value
 * of all those keys at one instant (a Keyspace), against which every
 * operation is specified.
 */
module Store {
  import opened Wrappers
  import opened RedisCommands

  /** A message body as stored: sender, recipient and text. */
  datatype RawMessage = RawMessage(sender: string, recipient: string, content: string)

  /** A message body together with its identifier, as the handlers return it. */
  datatype Message = Message(id: int, sender: string, recipient: string, content: string)

  function WithId(id: int, m: RawMessage): Message {
    Message(id, m.sender, m.recipient, m.content)
  }

  /** The contents of every key of the store. */
  datatype Keyspace = Keyspace(
    regularUsers: set<string>,              // set "regular_users"
    adminUsers: set<string>,                // set "admin_users"
    onlineUsers: set<string>,               // set "online_users"
    journalChannel: seq<string>,            // texts published on channel "event_journal"
    journalList: seq<string>,               // the event-journal list
    messageIndex: Option<int>,              // string key "message_index"; None when absent
    messages: map<int, RawMessage>,         // the message hash, id to body
    inbound: map<string, set<int>>,         // per-user inbound id sets
    outbound: map<string, set<int>>,        // per-user outbound id sets
    enqueued: set<int>,
    beingChecked: set<int>,
    spam: set<int>,
    delivered: set<int>,
    spamScores: SortedSet,                  // users ranked by spam messages
    deliveredScores: SortedSet              // users ranked by delivered messages
  )

  /** A store in which no key exists. */
  const Empty: Keyspace :=
    Keyspace({}, {}, {}, [], [], None, map[], map[], map[], {}, {}, {}, {}, [], [])

  /** A missing per-user key reads as the empty set. */
  function InboundOf(ks: Keyspace, username: string): set<int> {
    if username in ks.inbound then ks.inbound[username] else {}
  }

  function OutboundOf(ks: Keyspace, username: string): set<int> {
    if username in ks.outbound then ks.outbound[username] else {}
  }

  /** The store after one operation, and what the operation returned or raised. */
  datatype Transition<+T> = Transition(after: Keyspace, outcome: T)

  /** A connection to the store; each field is one key. */
  class Redis {
    var regularUsers: set<string>
    var adminUsers: set<string>
    var onlineUsers: set<string>
    var journalChannel: seq<string>
    var journalList: seq<string>
    var messageIndex: Option<int>
    var messages: map<int, RawMessage>
    var inbound: map<string, set<int>>
    var outbound: map<string, set<int>>
    var enqueued: set<int>
    var beingChecked: set<int>
    var spam: set<int>
    var delivered: set<int>
    var spamScores: SortedSet
    var deliveredScores: SortedSet

    /** A connection to a server whose keys hold `init`. */
    constructor (init: Keyspace)
      ensures Snapshot() == init
    {
      regularUsers, adminUsers, onlineUsers := init.regularUsers, init.adminUsers, init.onlineUsers;
      journalChannel, journalList := init.journalChannel, init.journalList;
      messageIndex, messages := init.messageIndex, init.messages;
      inbound, outbound := init.inbound, init.outbound;
      enqueued, beingChecked, spam, delivered := init.enqueued, init.beingChecked, init.spam, init.delivered;
      spamScores, deliveredScores := init.spamScores, init.deliveredScores;
    }

    function Snapshot(): Keyspace
      reads this
    {
      Keyspace(regularUsers, adminUsers, onlineUsers, journalChannel, journalList,
               messageIndex, messages, inbound, outbound,
               enqueued, beingChecked, spam, delivered, spamScores, deliveredScores)
    }
  }
}
