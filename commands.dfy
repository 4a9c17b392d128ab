/**
 * The Redis commands the messaging backend relies on, stated on values:
 * SADD on sets, LRANGE/ZRANGE index ranges, and sorted sets as the
 * ascending sequence of their entries.
 */
module RedisCommands {

  /** Redis integers (INCR) are signed 64-bit. */
  const MIN_INT64: int := -0x8000_0000_0000_0000
  const MAX_INT64: int := 0x7fff_ffff_ffff_ffff

  predicate IsInt64(n: int) {
    MIN_INT64 <= n <= MAX_INT64
  }

  /** SADD key m1 m2 ...: every listed member is added; re-adding is a no-op. */
  function SAdd(s: set<string>, members: seq<string>): (r: set<string>)
    ensures forall x :: x in r <==> x in s || x in members
  {
    s + set x | x in members
  }

  /**
   * The index window of LRANGE and ZRANGE: negative indexes count from the
   * end, a start below zero becomes zero, a stop past the end becomes the last
   * index, and an empty window gives the empty sequence.
   */
  function Range<T>(s: seq<T>, start: int, stop: int): (r: seq<T>)
    ensures |r| <= |s|
    ensures 0 <= start <= stop < |s| ==> r == s[start..stop + 1]
    ensures start == 0 && stop == -1 ==> r == s
    ensures start >= |s| || (0 <= stop < start) ==> r == []
  {
    var n := |s|;
    var lo := if start < 0 then start + n else start;
    var hi := if stop < 0 then stop + n else stop;
    var lo := if lo < 0 then 0 else lo;
    if lo > hi || lo >= n then []
    else
      var hi := if hi >= n then n - 1 else hi;
      s[lo..hi + 1]
  }

  /** One entry of a sorted set, as ZRANGE ... WITHSCORES returns it. */
  datatype ScoredMember = ScoredMember(member: string, score: int)

  /** Entries in ascending score order, each member once. */
  predicate IsSortedSet(z: seq<ScoredMember>) {
    forall i, j :: 0 <= i < j < |z| ==> z[i].score <= z[j].score && z[i].member != z[j].member
  }

  /** A sorted set, represented by its entries in the order ZRANGE lists them. */
  type SortedSet = z: seq<ScoredMember> | IsSortedSet(z) witness []

  /** ZRANGE key start stop WITHSCORES: a window of the ascending entries. */
  function ZRange(z: SortedSet, start: int, stop: int): (r: seq<ScoredMember>)
    ensures IsSortedSet(r)
    ensures start == 0 && stop == -1 ==> r == z
  {
    Range(z, start, stop)
  }
}
