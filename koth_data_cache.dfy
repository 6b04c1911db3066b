/**
 * `KothDataCache.java`: four Guava caches with `expireAfterWrite`.
 *
 * Each cache is a map from key to an `Entry` that remembers when it was
 * written.  The clock is the `now` parameter (milliseconds).  An entry is
 * live while less than its cache's lifetime has passed since it was written;
 * `getIfPresent` sees only live entries.
 */
module DataCache {
  import opened Common

  /** A cached value and the time it was last `put`. */
  datatype Entry<V> = Entry(value: V, writtenAt: int)

  const NAME_TTL: int := 60 * 60 * 1000   // 1 hour
  const STATS_TTL: int := 5 * 60 * 1000   // 5 minutes
  const TOP_TTL: int := 2 * 60 * 1000     // 2 minutes
  const TOTALS_TTL: int := 5 * 60 * 1000  // 5 minutes

  /** `expireAfterWrite`: an entry is live while `now - writtenAt < ttl`. */
  predicate Live<K, V>(table: map<K, Entry<V>>, k: K, now: int, ttl: int)
  {
    k in table && now - table[k].writtenAt < ttl
  }

  /** Guava's `getIfPresent`. */
  function Lookup<K, V>(table: map<K, Entry<V>>, k: K, now: int, ttl: int): (r: Option<V>)
    ensures r.Some? <==> Live(table, k, now, ttl)
    ensures r.Some? ==> r.value == table[k].value
  {
    if Live(table, k, now, ttl) then Some(table[k].value) else None
  }

  /** `incrementPlayerWins` on the stats cache: a live map is bumped in place, so its write time stays. */
  function BumpStats(stats: map<Uuid, Entry<map<string, int>>>, uuid: Uuid, kothName: string, now: int)
    : map<Uuid, Entry<map<string, int>>>
  {
    if Live(stats, uuid, now, STATS_TTL) then
      var e := stats[uuid];
      stats[uuid := Entry(e.value[kothName := GetOrZero(e.value, kothName) + 1], e.writtenAt)]
    else stats
  }

  /** `incrementPlayerWins` on the per-KotH totals: a live total is re-put plus one, anything else is invalidated. */
  function BumpTotal(totals: map<string, Entry<int>>, kothName: string, now: int): map<string, Entry<int>>
  {
    if Live(totals, kothName, now, TOTALS_TTL) then totals[kothName := Entry(totals[kothName].value + 1, now)]
    else totals - {kothName}
  }

  /** A value put at `t` reads back unchanged while it is younger than the lifetime, and other keys are unaffected. */
  lemma PutThenLookup<K, V>(table: map<K, Entry<V>>, k: K, v: V, t: int, ttl: int, now: int, other: K)
    requires t <= now < t + ttl
    ensures Lookup(table[k := Entry(v, t)], k, now, ttl) == Some(v)
    ensures other != k ==> Lookup(table[k := Entry(v, t)], other, now, ttl) == Lookup(table, other, now, ttl)
  {
  }

  /** A live stats map gains exactly one win for `kothName`; all other counts and all other players stay. */
  lemma BumpStatsLive(stats: map<Uuid, Entry<map<string, int>>>, uuid: Uuid, kothName: string, now: int)
    requires Live(stats, uuid, now, STATS_TTL)
    ensures var m := Lookup(BumpStats(stats, uuid, kothName, now), uuid, now, STATS_TTL);
      && m.Some?
      && kothName in m.value
      && m.value[kothName] == GetOrZero(stats[uuid].value, kothName) + 1
      && (forall k | k != kothName :: GetOrZero(m.value, k) == GetOrZero(stats[uuid].value, k))
      && m.value.Keys == stats[uuid].value.Keys + {kothName}
    ensures forall u, t | u != uuid :: Lookup(BumpStats(stats, uuid, kothName, now), u, t, STATS_TTL)
                                    == Lookup(stats, u, t, STATS_TTL)
  {
  }

  /** A live entry after the increment: bumped for the winner, as it was for anyone else. */
  lemma BumpStatsEntry(stats: map<Uuid, Entry<map<string, int>>>, uuid: Uuid, kothName: string, now: int, u: Uuid)
    requires Live(stats, u, now, STATS_TTL)
    ensures var m := stats[u].value;
      && u in BumpStats(stats, uuid, kothName, now)
      && BumpStats(stats, uuid, kothName, now)[u].value
           == if u == uuid then m[kothName := GetOrZero(m, kothName) + 1] else m
  {
  }

  /** A player with no live stats entry gets none: the increment creates nothing. */
  lemma BumpStatsMissing(stats: map<Uuid, Entry<map<string, int>>>, uuid: Uuid, kothName: string, now: int)
    requires !Live(stats, uuid, now, STATS_TTL)
    ensures BumpStats(stats, uuid, kothName, now) == stats
    ensures Lookup(BumpStats(stats, uuid, kothName, now), uuid, now, STATS_TTL).None?
  {
  }

  /** A live total goes up by exactly one; an absent or expired one stays absent. */
  lemma BumpTotalCases(totals: map<string, Entry<int>>, kothName: string, now: int)
    ensures Live(totals, kothName, now, TOTALS_TTL) ==>
      Lookup(BumpTotal(totals, kothName, now), kothName, now, TOTALS_TTL) == Some(totals[kothName].value + 1)
    ensures !Live(totals, kothName, now, TOTALS_TTL) ==>
      forall t :: Lookup(BumpTotal(totals, kothName, now), kothName, t, TOTALS_TTL).None?
    ensures forall k, t | k != kothName :: Lookup(BumpTotal(totals, kothName, now), k, t, TOTALS_TTL)
                                        == Lookup(totals, k, t, TOTALS_TTL)
  {
  }

  class KothDataCache {
    var playerNames: map<Uuid, Entry<string>>
    var playerStats: map<Uuid, Entry<map<string, int>>>
    var topPlayers: map<int, Entry<seq<SortedPlayer>>>
    var kothTotalWins: map<string, Entry<int>>

    constructor ()
      ensures playerNames == map[] && playerStats == map[]
      ensures topPlayers == map[] && kothTotalWins == map[]
    {
      playerNames := map[];
      playerStats := map[];
      topPlayers := map[];
      kothTotalWins := map[];
    }

    method UpdatePlayerName(uuid: Uuid, name: string, now: int)
      modifies this
      ensures playerNames == old(playerNames)[uuid := Entry(name, now)]
      ensures playerStats == old(playerStats) && topPlayers == old(topPlayers)
      ensures kothTotalWins == old(kothTotalWins)
    {
      playerNames := playerNames[uuid := Entry(name, now)];
    }

    /** The cached name, or none once it is absent or older than an hour. */
    method GetPlayerName(uuid: Uuid, now: int) returns (r: Option<string>)
      ensures r.Some? <==> uuid in playerNames && now - playerNames[uuid].writtenAt < NAME_TTL
      ensures r.Some? ==> r.value == playerNames[uuid].value
    {
      r := Lookup(playerNames, uuid, now, NAME_TTL);
    }

    /** Stores a copy of `stats` (a map value) and restarts its lifetime. */
    method SetPlayerStats(uuid: Uuid, stats: map<string, int>, now: int)
      modifies this
      ensures playerStats == old(playerStats)[uuid := Entry(stats, now)]
      ensures playerNames == old(playerNames) && topPlayers == old(topPlayers)
      ensures kothTotalWins == old(kothTotalWins)
    {
      playerStats := playerStats[uuid := Entry(stats, now)];
    }

    /** A copy of the live stats map, or none for a player with no live entry. */
    method GetPlayerStats(uuid: Uuid, now: int) returns (r: Option<map<string, int>>)
      ensures r.Some? <==> uuid in playerStats && now - playerStats[uuid].writtenAt < STATS_TTL
      ensures r.Some? ==> r.value == playerStats[uuid].value
    {
      r := Lookup(playerStats, uuid, now, STATS_TTL);
    }

    /**
     * One more win: a live stats map is bumped in place, every cached
     * top-players list is dropped, and the KotH's total is bumped or dropped.
     */
    method IncrementPlayerWins(uuid: Uuid, kothName: string, now: int)
      modifies this
      ensures playerStats == BumpStats(old(playerStats), uuid, kothName, now)
      ensures topPlayers == map[]
      ensures kothTotalWins == BumpTotal(old(kothTotalWins), kothName, now)
      ensures playerNames == old(playerNames)
    {
      var stats := Lookup(playerStats, uuid, now, STATS_TTL);
      if stats.Some? {
        var m := stats.value;
        playerStats := playerStats[uuid := Entry(m[kothName := GetOrZero(m, kothName) + 1], playerStats[uuid].writtenAt)];
      }
      topPlayers := map[];
      var currentTotal := Lookup(kothTotalWins, kothName, now, TOTALS_TTL);
      if currentTotal.Some? {
        kothTotalWins := kothTotalWins[kothName := Entry(currentTotal.value + 1, now)];
      } else {
        kothTotalWins := kothTotalWins - {kothName};
      }
    }

    /** Stores an element-by-element copy of `players` under `limit`. */
    method SetTopPlayers(limit: int, players: seq<SortedPlayer>, now: int)
      modifies this
      ensures topPlayers == old(topPlayers)[limit := Entry(players, now)]
      ensures playerNames == old(playerNames) && playerStats == old(playerStats)
      ensures kothTotalWins == old(kothTotalWins)
    {
      var copy := CopyRows(players);
      topPlayers := topPlayers[limit := Entry(copy, now)];
    }

    /** An element-by-element copy of the live list cached under `limit`, or none. */
    method GetTopPlayers(limit: int, now: int) returns (r: Option<seq<SortedPlayer>>)
      ensures r.Some? <==> limit in topPlayers && now - topPlayers[limit].writtenAt < TOP_TTL
      ensures r.Some? ==> r.value == topPlayers[limit].value
    {
      var players := Lookup(topPlayers, limit, now, TOP_TTL);
      if players.Some? {
        var copy := CopyRows(players.value);
        r := Some(copy);
      } else {
        r := None;
      }
    }

    /** Empties all four caches. */
    method InvalidateAll()
      modifies this
      ensures playerNames == map[] && playerStats == map[]
      ensures topPlayers == map[] && kothTotalWins == map[]
    {
      playerNames := map[];
      playerStats := map[];
      topPlayers := map[];
      kothTotalWins := map[];
    }
  }

  /** The `for` loop that builds a defensive copy of a top-players list. */
  method CopyRows(players: seq<SortedPlayer>) returns (copy: seq<SortedPlayer>)
    ensures copy == players
  {
    copy := [];
    for i := 0 to |players|
      invariant copy == players[..i]
    {
      copy := copy + [players[i]];
    }
  }
}
