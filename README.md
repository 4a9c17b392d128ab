# Messaging backend session and message store: a Dafny model

This project models the store-backed core of a small messaging backend. The
backend's Redis store is an explicit object, `Store.Redis`, with one field per
key:

- the registry sets `regular_users` and `admin_users`;
- the `online_users` set;
- the texts published on the `event_journal` channel;
- the event-journal list;
- the `message_index` counter;
- the message hash (id to body);
- the per-user inbound and outbound id sets;
- the four status sets (enqueued, being spam-checked, spam, delivered);
- the two score rankings (by spam messages and by delivered messages).

`Store.Keyspace` is the value of all those keys at one instant. Each domain
operation has a pure transition function on a `Keyspace` and a method that
performs the same Redis commands in place. The method is proved to leave the
store exactly as its function says. The model covers:

- **Sessions** (`Users`): login and logout check registry membership first,
  then online membership. They either report `UsernameNotFound`,
  `AlreadyLoggedIn` or `NotLoggedIn` and change nothing, or they publish
  "`<name>` has logged in." / "`<name>` has logged out." and add the user to,
  or remove them from, the online set.
- **Message creation** (`Messages`): the counter is read. `INCR` and `HSET`
  then run in one MULTI/EXEC block. The call returns `INCR`'s reply, which is
  the new id.
- **Seeding** (`Seeding`): the fixed names are added to the two registry sets.
- **Request handlers** (`App`):
  - required-field validation, with 422 for a missing or empty field;
  - the mapping of domain errors to 404 and 418;
  - the read-only queries: user stats, inbound messages, the two rankings,
    online users and the event journal.

Redis commands are stated on values in `RedisCommands`:

- `SADD` as set union;
- the `LRANGE`/`ZRANGE` index window, with negative indexes and clamping;
- a sorted set as its entries in ascending score order.

`Lists` holds the two Python list operations the handlers use: reading a list
backwards (`[::-1]`) and listing a set.

Source and model differ in these places:

- `create_message` writes the hash named `"message"`, but `/inbound-messages`
  reads `MESSAGE_HASH`, which is defined in a module that is not part of this
  model. The model uses one message map for both.
- `login_user` and `logout_user` publish on the `event_journal` channel.
  `/event-journal` reads the event-journal list with `LRANGE`. These are
  different Redis keys, and none of the modelled code writes the list. The
  model keeps them as two fields (`journalChannel`, `journalList`).
- Nothing in the modelled code creates `message_index`: seeding does not set
  it. `App.SeededStoreHasNoCounter` shows that every creation fails on a
  freshly seeded store.

## Model

| member | source | states |
|---|---|---|
| `Users.Login` | lab2/domain/user.py:15-25 | UsernameNotFound exactly when the name is in neither registry set, even when it is online. AlreadyLoggedIn exactly when registered and online. Success otherwise. An error changes nothing. Success appends "`<name>` has logged in." to the channel and adds the name to the online set. No other key changes. |
| `Users.LoginUser` | lab2/domain/user.py:15-25 | The store after the call and the returned outcome are exactly those of `Users.Login` on the store before it. |
| `Users.Logout` | lab2/domain/user.py:28-42 | UsernameNotFound exactly when unregistered. NotLoggedIn exactly when registered and not online. Success otherwise. An error changes nothing. Success appends "`<name>` has logged out." and removes the name from the online set. No other key changes. |
| `Users.LogoutUser` | lab2/domain/user.py:28-42 | The store after the call and the returned outcome are exactly those of `Users.Logout`. |
| `Users.LoginThenLogout` | lab2/domain/user.py:24-42 | After a successful login, logout of the same user succeeds and restores the online set. The channel gains exactly the login and logout texts. Nothing else differs from the starting store. |
| `Users.SecondLoginRejected` | lab2/domain/user.py:19-22 | A second login of a user who just logged in fails with AlreadyLoggedIn and leaves the store as it was. |
| `Users.OnlineStaysRegistered` | lab2/domain/user.py:19-25 | If every online user is registered, that still holds after any login or logout. |
| `Messages.Create` | lab2/domain/message.py:9-18 | With no counter, the call fails with nothing written. Otherwise the hash maps counter+1 to the body. The call succeeds exactly when INCR accepts the counter (signed 64-bit). Then the returned id is the old counter plus one, the counter becomes that id, and the id maps to the body. On failure the counter is unchanged. Only the counter and the hash can change. |
| `Messages.CreateMessage` | lab2/domain/message.py:9-18 | The store after the call and the returned id or error are exactly those of `Messages.Create`. |
| `Messages.SuccessiveIdsContiguous` | lab2/domain/message.py:11-17 | n successive calls starting from counter c succeed with the ids c+1 … c+n in order, strictly increasing and hence distinct. The counter ends at c+n. No key other than the counter and the message hash changes. |
| `Messages.SuccessiveBodiesStored` | lab2/domain/message.py:12-15 | After n successive calls starting from counter c, the i-th body is stored under c+1+i. Every message stored under an id outside c+1 … c+n is kept unchanged. |
| `Seeding.Seed` | lab2/domain/db.py:5-11 | `regular_users` gains "Alice" and "Malory". `admin_users` gains "Dizzzmas" and "Ilya". Every earlier member stays. No other key changes. |
| `Seeding.SeedDb` | lab2/domain/db.py:9-11 | The store after the call is `Seeding.Seed` of the store before it. |
| `Seeding.SeedIdempotent` | lab2/domain/db.py:9-11 | Seeding twice gives the same store as seeding once. |
| `Seeding.SeedOnlyAdds` | lab2/domain/db.py:10-11 | Every registry member before seeding is still one after it. |
| `App.Login` | lab2/app.py:45-58 | A missing or empty username gives 422 and changes nothing. Otherwise the store changes as `Users.Login` says. The reply is 404 for an unregistered name, 418 for an online one, and "Logged in." otherwise. |
| `App.Logout` | lab2/app.py:61-74 | A missing or empty username gives 422 and changes nothing. Otherwise the store changes as `Users.Logout` says. The reply is 404 for an unregistered name, 418 for one not online, and "Logged out." otherwise. |
| `App.SendMessage` | lab2/app.py:77-91 | Any missing or empty field gives 422 and nothing is created. Otherwise the store changes as `Messages.Create` says. The reply echoes sender, recipient and content unchanged with the created id, or is 500 when creation raises. |
| `App.HydrateInbound` | lab2/app.py:102-107 | 500 exactly when some id has no stored body. Otherwise the reply lists each id exactly once, each entry being the stored body with its own id. |
| `App.GetInboundMessages` | lab2/app.py:94-109 | Corrected handler. The reply lists exactly the ids in the user's inbound set that are also delivered, each once with its stored body and its own id. An empty intersection gives an empty list. A missing body gives 500. |
| `App.GetInboundMessagesAsWritten` | lab2/app.py:94-109 | The handler as written. An empty intersection gives 500. Otherwise it behaves as the corrected handler. |
| `App.GetMessageStats` | lab2/app.py:112-136 | Each count is the size of the user's outbound set intersected with the delivered, enqueued, spam and being-checked set. Each is bounded by the outbound set and by its status set. |
| `App.StatsAccountForOutbound` | lab2/app.py:116-129 | When no message is in two status sets, the four counts sum to at most the number of messages the user sent. They sum to exactly that number when every sent message has a status. |
| `App.GetSpammerStats` | lab2/app.py:139-145 | The reply is the whole spam ranking reversed, so scores never increase along it. |
| `App.GetHighestActivityStats` | lab2/app.py:156-162 | The reply is the whole delivered ranking reversed, so scores never increase along it. |
| `App.GetOnlineUsers` | lab2/app.py:148-153 | Exactly the members of the online set, each once. |
| `App.GetEventJournal` | lab2/app.py:165-170 | `LRANGE 0 -1` returns the whole journal list in stored order. |
| `App.SeededSessionScenario` | lab2/domain/user.py:15-42 | On a freshly seeded store: "ghost" gets UsernameNotFound. Alice logs in and is online. A second login gets AlreadyLoggedIn. Logout succeeds and takes her offline. A second logout gets NotLoggedIn. |
| `App.SeededStoreHasNoCounter` | lab2/domain/message.py:11-12 | On a freshly seeded store, creating a message fails because `message_index` is absent. |
| `RedisCommands.Range` | lab2/app.py:168 | The LRANGE window is never longer than the list. An in-range window is the matching slice. `0 -1` is the whole list. A window starting past the end, or whose stop is before its start, is empty. |
| `RedisCommands.ZRange` | lab2/app.py:142 | A window of a sorted set is still ascending with distinct members. `0 -1` is the whole set. |
| `Lists.Reverse` | lab2/app.py:143 | `[::-1]` keeps the length, and its entry i is the input's entry n-1-i. |
| `Lists.ToList` | lab2/app.py:151 | `list(set)` lists every member of the set exactly once. |

## Left out

- Concurrency. Each call is one atomic step. The WATCH/retry loop of the transaction and the check-then-act race in login and logout are not modelled.
- The queue worker, spam checks and every status transition. The modelled code has no such transitions: the message-queue listener only prints. The status sets, inbound/outbound sets and rankings are inputs to the queries only.
- The pub/sub listener threads and broadcast delivery. Publishing is appending to the channel's sequence.
- JSON encoding and decoding of message bodies. A body is stored and read back as the same record.
- Flask request parsing and response serialisation. A request field is `Option<string>`. A JSON field of another falsy type (0, false, []) is not modelled.
- The text of abort messages and of exception strings. The exception module is not part of this model, so a reply keeps only its status code.
- The key name reported by `/event-journal`, which is "chatters".
- A missing `username` query parameter on the GET handlers. The list-name helpers that would receive `None` are not part of this model.
- The connection and seed-at-import wiring. `Store.Redis` is constructed over any initial key contents.
- The lab1 HTML scraper: HTTP fetching, XPath parsing and XML file writing.
- A `message_index` holding a non-integer string. `None` stands for an absent key only.
- Sorted-set scores, which are integers here rather than floating point.
- The lexicographic tie order among members with equal scores. `RedisCommands.IsSortedSet` only asks scores to be non-decreasing.
- Per-user inbound and outbound keys are keyed by username. The helpers that build their key names are not part of this model.

## Findings

| source | as written | input that shows it | evidently intended | confidence | as-written member | corrected member |
|---|---|---|---|---|---|---|
| lab2/app.py:99-109 | `r.hmget(MESSAGE_HASH, *inbound_message_ids)` is called even when the intersection is empty. The client's `hmget` needs at least one field, so the call raises and the handler answers 500. | A user with no delivered inbound message, for example "Alice" on a freshly seeded store. | Reply 200 with an empty `messages` list. | high; depends on the Redis client library's `hmget` signature; not executed | `App.GetInboundMessagesAsWritten` | `App.GetInboundMessages` |
