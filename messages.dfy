/**
 * Message creation: read the message counter, then, in one MULTI/EXEC
 * block, increment it and store the body under the new identifier.
 */
module Messages {
  import opened Wrappers
  import opened RedisCommands
  import opened Store

  datatype CreateError =
    | CounterMissing      // the counter key is absent: converting it to an integer fails before any write
    | IncrementRejected   // INCR replied with an error (result outside signed 64 bits)

  /** Whether INCR accepts the counter value `c`. */
  predicate IncrementAccepted(c: int) {
    IsInt64(c) && IsInt64(c + 1)
  }

  /**
   * What one create_message call does to the store. Once the counter has been
   * read, both queued commands run: HSET always stores the body under the
   * counter plus one, and the call returns INCR's reply, which is that same id.
   */
  function Create(ks: Keyspace, message: RawMessage): (t: Transition<Result<int, CreateError>>)
    ensures ks.messageIndex.None? ==> t == Transition(ks, Failure(CounterMissing))
    ensures ks.messageIndex.Some? ==> t.after.messages == ks.messages[ks.messageIndex.value + 1 := message]
    ensures t.outcome.Success? <==> ks.messageIndex.Some? && IncrementAccepted(ks.messageIndex.value)
    ensures t.outcome.Success? ==>
              && t.outcome.value == ks.messageIndex.value + 1
              && t.after.messageIndex == Some(t.outcome.value)
              && t.outcome.value in t.after.messages
              && t.after.messages[t.outcome.value] == message
    ensures t.outcome.Failure? ==> t.after.messageIndex == ks.messageIndex
    ensures t.after == ks.(messageIndex := t.after.messageIndex, messages := t.after.messages)
  {
    match ks.messageIndex
    case None => Transition(ks, Failure(CounterMissing))
    case Some(current) =>
      var id := current + 1;
      var stored := ks.(messages := ks.messages[id := message]);
      if IncrementAccepted(current) then
        Transition(stored.(messageIndex := Some(id)), Success(id))
      else
        Transition(stored, Failure(IncrementRejected))
  }

  /** create_message on the store: GET the counter, then INCR and HSET; return INCR's reply. */
  method CreateMessage(r: Redis, message: RawMessage) returns (res: Result<int, CreateError>)
    modifies r
    ensures Transition(r.Snapshot(), res) == Create(old(r.Snapshot()), message)
  {
    var current := r.messageIndex;
    if current.None? {
      return Failure(CounterMissing);
    }
    var messageId := current.value + 1;
    var incrReply: Result<int, CreateError>;
    if IncrementAccepted(current.value) {
      r.messageIndex := Some(current.value + 1);
      incrReply := Success(current.value + 1);
    } else {
      incrReply := Failure(IncrementRejected);
    }
    r.messages := r.messages[messageId := message];
    res := incrReply;
  }

  /** The message hash maps `id` to `m`. */
  predicate StoredAt(messages: map<int, RawMessage>, id: int, m: RawMessage) {
    id in messages && messages[id] == m
  }

  /** The message hash holds the bodies of `batch` under consecutive ids starting at `first`. */
  predicate StoredFrom(messages: map<int, RawMessage>, first: int, batch: seq<RawMessage>) {
    forall i :: 0 <= i < |batch| ==> StoredAt(messages, first + i, batch[i])
  }

  /** Successive create_message calls, one per body, each on the store the previous one left. */
  function CreateAll(ks: Keyspace, batch: seq<RawMessage>): (t: Transition<seq<Result<int, CreateError>>>)
    ensures |t.outcome| == |batch|
    decreases |batch|
  {
    if batch == [] then Transition(ks, [])
    else
      var first := Create(ks, batch[0]);
      var rest := CreateAll(first.after, batch[1..]);
      Transition(rest.after, [first.outcome] + rest.outcome)
  }

  /** Every stored message whose id lies outside lo..hi is still stored unchanged. */
  predicate KeptOutside(before: map<int, RawMessage>, after: map<int, RawMessage>, lo: int, hi: int) {
    forall id :: id in before && !(lo <= id <= hi) ==> id in after && after[id] == before[id]
  }

  /** The outcomes are the successful ids first, first + 1, ... */
  predicate IdsFrom(outcomes: seq<Result<int, CreateError>>, first: int) {
    forall i :: 0 <= i < |outcomes| ==> outcomes[i] == Success(first + i)
  }

  /**
   * Successive calls on a counter holding c hand out c+1, c+2, ... in order,
   * so the ids are strictly increasing and form a contiguous range; the
   * counter ends at c + n, and no key other than the counter and the message
   * hash changes.
   */
  lemma {:induction false} SuccessiveIdsContiguous(ks: Keyspace, batch: seq<RawMessage>)
    requires ks.messageIndex.Some? && IsInt64(ks.messageIndex.value)
    requires ks.messageIndex.value + |batch| <= MAX_INT64
    ensures var c, t := ks.messageIndex.value, CreateAll(ks, batch);
      && IdsFrom(t.outcome, c + 1)
      && (forall i, j :: 0 <= i < j < |batch| ==> t.outcome[i].value < t.outcome[j].value)
      && t.after.messageIndex == Some(c + |batch|)
      && t.after == ks.(messageIndex := t.after.messageIndex, messages := t.after.messages)
    decreases |batch|
  {
    if batch != [] {
      var first := Create(ks, batch[0]);
      SuccessiveIdsContiguous(first.after, batch[1..]);
    }
  }

  /**
   * Successive calls on a counter holding c store the i-th body under c+1+i
   * and keep every message stored under an id outside c+1 .. c+n.
   */
  lemma {:induction false} SuccessiveBodiesStored(ks: Keyspace, batch: seq<RawMessage>)
    requires ks.messageIndex.Some? && IsInt64(ks.messageIndex.value)
    requires ks.messageIndex.value + |batch| <= MAX_INT64
    ensures var c, t := ks.messageIndex.value, CreateAll(ks, batch);
      && StoredFrom(t.after.messages, c + 1, batch)
      && KeptOutside(ks.messages, t.after.messages, c + 1, c + |batch|)
    decreases |batch|
  {
    if batch != [] {
      var first := Create(ks, batch[0]);
      SuccessiveBodiesStored(first.after, batch[1..]);
    }
  }
}
