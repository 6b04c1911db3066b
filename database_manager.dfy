/**
 * `database/DatabaseManager.java`: the coordinator between the MySQL store
 * and `KothDataCache`.
 *
 * Each `CompletableFuture` is modelled as the sequential run of its body.
 * The clock is the `now` parameter; it never goes back (Guava's ticker is
 * `System.nanoTime`), which the ghost field `clock` records.  `failAt` is the
 * position of the `rs.next()` call that throws, if one does.  The coordinator
 * calls three cache members that `KothDataCache` does not define: here
 * `incrementKothWin` is `IncrementPlayerWins`, `needsTopPlayersRefresh` is
 * the predicate `NeedsTopRefresh` over the field `lastTopRefresh`, and
 * `updateTopPlayers(results)` is `SetTopPlayers(limit, results)` plus
 * recording the refresh time.  `scheduleTopPlayersRefresh` is counted in
 * `refreshRequests`.
 */
module Database {
  import opened Common
  import opened Schema
  import opened Leaderboard
  import opened DataCache
  import opened Store

  /** `needsTopPlayersRefresh(refreshSeconds)`: never refreshed, or at least `refreshSeconds` ago. */
  predicate NeedsTopRefresh(lastTopRefresh: Option<int>, refreshSeconds: int, now: int)
  {
    lastTopRefresh.None? || now - lastTopRefresh.value >= refreshSeconds * 1000
  }

  /**
   * `getTopPlayers` answers from the cache: no refresh is due and the list
   * cached for `limit` is live and not empty.  An absent list counts as empty.
   */
  predicate CachedTopUsable(lastTopRefresh: Option<int>, topPlayers: map<int, Entry<seq<SortedPlayer>>>,
                            limit: int, refreshSeconds: int, now: int)
  {
    && !NeedsTopRefresh(lastTopRefresh, refreshSeconds, now)
    && Live(topPlayers, limit, now, TOP_TTL)
    && topPlayers[limit].value != []
  }

  /** Every `rs.next()` of a read over `n` rows returns normally (calls `0..n`, the last one saying "no more"). */
  predicate ReadCompletes(failAt: Option<nat>, n: nat)
  {
    failAt.None? || failAt.value > n
  }

  /** Every live cached stats map is what `GET_PLAYER_STATS` returns now. */
  ghost predicate StatsCoherent(cached: map<Uuid, Entry<map<string, int>>>, winLog: seq<WinKey>,
                                stats: map<WinKey, int>, now: int)
  {
    forall u | Live(cached, u, now, STATS_TTL) :: cached[u].value == PlayerStatsResult(stats, winLog, u)
  }

  /** Every live cached leaderboard is, names aside, what the leaderboard query returns now. */
  ghost predicate TopCoherent(cached: map<int, Entry<seq<SortedPlayer>>>, players: map<Uuid, string>,
                              stats: map<WinKey, int>, now: int)
  {
    forall l | Live(cached, l, now, TOP_TTL) :: IsTopNByScore(cached[l].value, players, stats, l)
  }

  /** Entries only expire as time goes on, so coherence at one time holds at any later time. */
  lemma CoherentLater(c: map<Uuid, Entry<map<string, int>>>, top: map<int, Entry<seq<SortedPlayer>>>,
                      players: map<Uuid, string>, winLog: seq<WinKey>, stats: map<WinKey, int>, t0: int, t: int)
    requires t0 <= t
    requires StatsCoherent(c, winLog, stats, t0) && TopCoherent(top, players, stats, t0)
    ensures StatsCoherent(c, winLog, stats, t) && TopCoherent(top, players, stats, t)
  {
    forall u | Live(c, u, t, STATS_TTL) ensures c[u].value == PlayerStatsResult(stats, winLog, u) {
      assert Live(c, u, t0, STATS_TTL);
    }
    forall l | Live(top, l, t, TOP_TTL) ensures IsTopNByScore(top[l].value, players, stats, l) {
      assert Live(top, l, t0, TOP_TTL);
    }
  }

  /** Caching what `GET_PLAYER_STATS` returns keeps cached stats right. */
  lemma CachingResultKeepsCoherent(cached: map<Uuid, Entry<map<string, int>>>, winLog: seq<WinKey>,
                                   stats: map<WinKey, int>, uuid: Uuid, now: int)
    requires StatsCoherent(cached, winLog, stats, now)
    ensures StatsCoherent(cached[uuid := Entry(PlayerStatsResult(stats, winLog, uuid), now)], winLog, stats, now)
  {
  }

  /** The cache's in-place increment mirrors a committed win, so cached stats stay right. */
  lemma WinKeepsStatsCoherent(players: map<Uuid, string>, winLog: seq<WinKey>, stats: map<WinKey, int>,
                              cached: map<Uuid, Entry<map<string, int>>>, key: WinKey, now: int)
    requires Consistent(players, winLog, stats)
    requires StatsCoherent(cached, winLog, stats, now)
    ensures StatsCoherent(BumpStats(cached, key.player, key.koth, now), winLog + [key], BumpWins(stats, key), now)
  {
    var after := BumpStats(cached, key.player, key.koth, now);
    forall u | Live(after, u, now, STATS_TTL)
      ensures after[u].value == PlayerStatsResult(BumpWins(stats, key), winLog + [key], u)
    {
      assert Live(cached, u, now, STATS_TTL);
      WinUpdatesPlayerStats(players, winLog, stats, key, u);
      BumpStatsEntry(cached, key.player, key.koth, now, u);
    }
  }

  /** Renaming or adding players keeps cached leaderboards right by score. */
  lemma UpsertKeepsTopCoherent(players: map<Uuid, string>, players': map<Uuid, string>, winLog: seq<WinKey>,
                               stats: map<WinKey, int>, cached: map<int, Entry<seq<SortedPlayer>>>, now: int)
    requires Consistent(players, winLog, stats) && Consistent(players', winLog, stats)
    requires TopCoherent(cached, players, stats, now)
    ensures TopCoherent(cached, players', stats, now)
  {
    RankedUnderForeignKeys(players, stats);
    RankedUnderForeignKeys(players', stats);
    forall l | Live(cached, l, now, TOP_TTL) ensures IsTopNByScore(cached[l].value, players', stats, l) {
      ByScoreSameRanked(cached[l].value, players, players', stats, l);
    }
  }

  /**
   * What `registerWinAsync` reports as written: the flag the callback sets
   * on its last line, before `connect` commits.
   */
  function ReportedSuccessAsWritten(playerKnown: bool, fault: TxFault): (reported: bool)
    ensures reported <==> playerKnown && (fault == NoFault || fault == CommitFault)
  {
    WinTransaction(playerKnown, fault).callbackDone
  }

  /** The reported flag and the commit disagree exactly when `commit()` itself fails. */
  lemma ReportedSuccessDiffersOnCommitFault(playerKnown: bool, fault: TxFault)
    ensures ReportedSuccessAsWritten(playerKnown, fault) != WinTransaction(playerKnown, fault).committed
        <==> playerKnown && fault == CommitFault
  {
  }

  /** A win whose commit fails is reported as a success, and nothing was stored. */
  lemma CommitFailureReportedAsSuccess()
    ensures ReportedSuccessAsWritten(true, CommitFault)
    ensures !WinTransaction(true, CommitFault).committed
  {
  }

  /**
   * What the as-written flag causes: after a failed commit the tables are as
   * before, yet `thenApply` bumps the cache, so a winner whose stats map was
   * cached and right now sees one win too many.
   */
  lemma CommitFailureStalesCachedStats(players: map<Uuid, string>, winLog: seq<WinKey>, stats: map<WinKey, int>,
                                       cached: map<Uuid, Entry<map<string, int>>>, key: WinKey, now: int)
    requires Consistent(players, winLog, stats) && key.player in players
    requires StatsCoherent(cached, winLog, stats, now) && Live(cached, key.player, now, STATS_TTL)
    ensures ReportedSuccessAsWritten(true, CommitFault) && !WinTransaction(true, CommitFault).committed
    ensures !StatsCoherent(BumpStats(cached, key.player, key.koth, now), winLog, stats, now)
  {
    var after := BumpStats(cached, key.player, key.koth, now);
    var m := cached[key.player].value;
    BumpStatsEntry(cached, key.player, key.koth, now, key.player);
    assert Live(after, key.player, now, STATS_TTL);
    assert after[key.player].value[key.koth] == GetOrZero(m, key.koth) + 1;
    assert after[key.player].value != PlayerStatsResult(stats, winLog, key.player);
  }

  /** The `(uuid, name)` pairs of the batch built so far and the entries still to add make up the map. */
  ghost predicate SplitsEntries(batch: seq<(Uuid, string)>, rest: map<Uuid, string>, entries: map<Uuid, string>)
  {
    BatchMap(batch) + rest == entries && BatchMap(batch).Keys !! rest.Keys
  }

  /** Adding one more entry to the batch keeps the split. */
  lemma AddToBatch(batch: seq<(Uuid, string)>, rest: map<Uuid, string>, entries: map<Uuid, string>, u: Uuid)
    requires SplitsEntries(batch, rest, entries) && u in rest
    ensures SplitsEntries(batch + [(u, rest[u])], rest - {u}, entries)
  {
    var e := (u, rest[u]);
    assert (batch + [e])[..|batch|] == batch;
    assert BatchMap(batch + [e]) == BatchMap(batch)[u := rest[u]];
  }

  /** Running a batch built from `entries` adds exactly the accepted entries to the table. */
  lemma BatchApplies(players: map<Uuid, string>, batch: seq<(Uuid, string)>, entries: map<Uuid, string>,
                     rejected: set<Uuid>)
    requires BatchMap(batch) == entries
    ensures UpsertAll(players, Accepted(batch, rejected)) == players + Kept(entries, rejected)
  {
    UpsertAllIsUnion(players, Accepted(batch, rejected));
    BatchMapAccepted(batch, rejected);
  }

  /** The loop over `players.entrySet()` that adds one `INSERT_PLAYER` per entry to the batch. */
  method BuildBatch(entries: map<Uuid, string>) returns (batch: seq<(Uuid, string)>)
    ensures BatchMap(batch) == entries
  {
    batch := [];
    var rest := entries;
    while rest != map[]
      invariant SplitsEntries(batch, rest, entries)
      decreases |rest|
    {
      var u :| u in rest;
      AddToBatch(batch, rest, entries, u);
      RemoveCard(rest, u);
      batch := batch + [(u, rest[u])];
      rest := rest - {u};
    }
    assert BatchMap(batch) + map[] == BatchMap(batch);
  }

  /**
   * The `while (rs.next())` loop of `getPlayerStats`: `put` each row into a
   * new map until the rows run out or `rs.next()` throws.  `read` is the
   * number of rows read.
   */
  method ReadStatRows(rows: seq<StatRow>, failAt: Option<nat>)
    returns (stats: map<string, int>, completed: bool, ghost read: nat)
    ensures completed <==> ReadCompletes(failAt, |rows|)
    ensures read <= |rows| && stats == RowsToMap(rows[..read])
    ensures completed ==> read == |rows| && stats == RowsToMap(rows)
    ensures !completed ==> failAt.Some? && read == failAt.value
    ensures read == if failAt.Some? && failAt.value < |rows| then failAt.value else |rows|
  {
    stats := map[];
    var i := 0;
    while i < |rows| && failAt != Some(i)
      invariant 0 <= i <= |rows|
      invariant stats == RowsToMap(rows[..i])
      invariant forall j | 0 <= j < i :: failAt != Some(j)
    {
      assert rows[..i + 1][..i] == rows[..i];
      stats := stats[rows[i].koth := rows[i].wins];
      i := i + 1;
    }
    completed := failAt != Some(i);
    read := i;
    assert completed ==> rows[..i] == rows;
  }

  /**
   * The `while (rs.next())` loop of `getTopPlayers`: add each row to a new
   * list until the rows run out or `rs.next()` throws.
   */
  method ReadTopRows(rows: seq<SortedPlayer>, failAt: Option<nat>)
    returns (results: seq<SortedPlayer>, completed: bool)
    ensures completed <==> ReadCompletes(failAt, |rows|)
    ensures |results| <= |rows| && results == rows[..|results|]
    ensures completed ==> results == rows
    ensures !completed ==> failAt.Some? && |results| == failAt.value
    ensures results == rows <==> failAt.None? || failAt.value >= |rows|
  {
    results := [];
    var i := 0;
    while i < |rows| && failAt != Some(i)
      invariant 0 <= i <= |rows| && results == rows[..i]
      invariant forall j | 0 <= j < i :: failAt != Some(j)
    {
      results := results + [rows[i]];
      i := i + 1;
    }
    completed := failAt != Some(i);
  }

  class DatabaseManager {
    const store: StatsStore
    const cache: KothDataCache
    var lastTopRefresh: Option<int>
    var refreshRequests: nat
    ghost var clock: int

    /** The tables are consistent and whatever the cache holds live agrees with them. */
    ghost predicate Valid()
      reads this, store, cache
    {
      && store.Valid()
      && StatsCoherent(cache.playerStats, store.winLog, store.stats, clock)
      && TopCoherent(cache.topPlayers, store.players, store.stats, clock)
    }

    /** Connects to `store` (its tables already created) with an empty cache. */
    constructor (store: StatsStore, now: int)
      requires store.Valid()
      ensures Valid() && this.store == store && fresh(cache) && clock == now
      ensures cache.playerNames == map[] && cache.playerStats == map[]
      ensures cache.topPlayers == map[] && cache.kothTotalWins == map[]
      ensures lastTopRefresh == None && refreshRequests == 0
    {
      this.store := store;
      cache := new KothDataCache();
      lastTopRefresh := None;
      refreshRequests := 0;
      clock := now;
    }

    /**
     * `registerWinAsync`: runs the win transaction and, only when it
     * committed, bumps the cache and asks for a leaderboard refresh.
     */
    method RegisterWinAsync(win: KothWin, fault: TxFault, now: int) returns (success: bool)
      requires Valid() && clock <= now
      modifies this, store, cache
      ensures Valid() && clock == now
      ensures success == WinTransaction(win.playerUuid in old(store.players), fault).committed
      ensures success <==> win.playerUuid in old(store.players) && fault == NoFault
      ensures success ==> var key := WinKey(win.playerUuid, win.kothName);
        store.winLog == old(store.winLog) + [key] && store.stats == BumpWins(old(store.stats), key)
      ensures !success ==> store.winLog == old(store.winLog) && store.stats == old(store.stats)
      ensures store.players == old(store.players) && store.selects == old(store.selects)
      ensures success ==>
        && cache.playerStats == BumpStats(old(cache.playerStats), win.playerUuid, win.kothName, now)
        && cache.topPlayers == map[]
        && cache.kothTotalWins == BumpTotal(old(cache.kothTotalWins), win.kothName, now)
        && cache.playerNames == old(cache.playerNames)
        && refreshRequests == old(refreshRequests) + 1
      ensures success ==> forall l, s, t :: !CachedTopUsable(lastTopRefresh, cache.topPlayers, l, s, t)
      ensures !success ==> unchanged(cache) && refreshRequests == old(refreshRequests)
      ensures lastTopRefresh == old(lastTopRefresh)
    {
      CoherentLater(cache.playerStats, cache.topPlayers, store.players, store.winLog, store.stats, clock, now);
      var key := WinKey(win.playerUuid, win.kothName);
      ghost var players, winLog, stats := store.players, store.winLog, store.stats;
      var outcome := store.RecordWin(key, fault);
      success := outcome.committed;
      if success {
        WinKeepsStatsCoherent(players, winLog, stats, cache.playerStats, key, now);
        cache.IncrementPlayerWins(win.playerUuid, win.kothName, now);
        refreshRequests := refreshRequests + 1;
      }
      clock := now;
    }

    /** `registerPlayerAsync`: one `INSERT_PLAYER`; reports whether it ran. */
    method RegisterPlayerAsync(uuid: Uuid, name: string, fault: bool) returns (success: bool)
      requires Valid()
      modifies store
      ensures Valid()
      ensures success == !fault
      ensures store.players == if success then Upsert(old(store.players), uuid, name) else old(store.players)
      ensures store.winLog == old(store.winLog) && store.stats == old(store.stats)
      ensures store.selects == old(store.selects)
    {
      ghost var players := store.players;
      success := store.UpsertPlayer(uuid, name, fault);
      UpsertKeepsTopCoherent(players, store.players, store.winLog, store.stats, cache.topPlayers, clock);
    }

    /**
     * `bulkInsertPlayers`: nothing at all for an empty map; otherwise one
     * batch of upserts, one per entry, of which those in `rejected` fail.
     */
    method BulkInsertPlayers(players: map<Uuid, string>, rejected: set<Uuid>)
      requires Valid()
      modifies store
      ensures Valid()
      ensures store.players == old(store.players) + Kept(players, rejected)
      ensures store.winLog == old(store.winLog) && store.stats == old(store.stats)
      ensures store.selects == old(store.selects)
      ensures players == map[] ==> unchanged(store)
    {
      if players == map[] {
        assert Kept(players, rejected) == map[];
        assert store.players + map[] == store.players;
        return;
      }
      ghost var before := store.players;
      var batch := BuildBatch(players);
      BatchApplies(before, batch, players, rejected);
      store.ExecuteBatch(batch, rejected);
      UpsertKeepsTopCoherent(before, store.players, store.winLog, store.stats, cache.topPlayers, clock);
    }

    /**
     * `getPlayerStats`, cache-aside: a live cached map is returned without a
     * query; otherwise the rows are read into a fresh map, which is cached
     * only when the read completed.  A failed read returns what was read.
     */
    method GetPlayerStats(uuid: Uuid, now: int, failAt: Option<nat>) returns (r: map<string, int>)
      requires Valid() && clock <= now
      modifies this, store, cache
      ensures Valid() && clock == now
      ensures store.players == old(store.players) && store.winLog == old(store.winLog)
      ensures store.stats == old(store.stats)
      ensures lastTopRefresh == old(lastTopRefresh) && refreshRequests == old(refreshRequests)
      ensures Live(old(cache.playerStats), uuid, now, STATS_TTL) ==>
        r == old(cache.playerStats)[uuid].value && unchanged(cache) && store.selects == old(store.selects)
      ensures var result := PlayerStatsResult(store.stats, store.winLog, uuid);
        Live(old(cache.playerStats), uuid, now, STATS_TTL) || ReadCompletes(failAt, |result|) ==> r == result
      ensures !Live(old(cache.playerStats), uuid, now, STATS_TTL) ==> store.selects == old(store.selects) + 1
      ensures var result := PlayerStatsResult(store.stats, store.winLog, uuid);
        !Live(old(cache.playerStats), uuid, now, STATS_TTL) && ReadCompletes(failAt, |result|) ==>
          && cache.playerStats == old(cache.playerStats)[uuid := Entry(result, now)]
          && cache.playerNames == old(cache.playerNames) && cache.topPlayers == old(cache.topPlayers)
          && cache.kothTotalWins == old(cache.kothTotalWins)
      ensures var result := PlayerStatsResult(store.stats, store.winLog, uuid);
        !Live(old(cache.playerStats), uuid, now, STATS_TTL) && !ReadCompletes(failAt, |result|) ==>
          unchanged(cache) && forall k | k in r :: k in result && r[k] == result[k]
    {
      CoherentLater(cache.playerStats, cache.topPlayers, store.players, store.winLog, store.stats, clock, now);
      clock := now;
      var cachedStats := cache.GetPlayerStats(uuid, now);
      if cachedStats.Some? {
        r := cachedStats.value;
        return;
      }
      var rows := store.QueryPlayerStats(uuid);
      ghost var result := PlayerStatsResult(store.stats, store.winLog, uuid);
      var stats, completed, read := ReadStatRows(rows, failAt);
      if completed {
        CachingResultKeepsCoherent(cache.playerStats, store.winLog, store.stats, uuid, now);
        cache.SetPlayerStats(uuid, stats, now);
      } else {
        PrefixAgrees(rows, result, read);
      }
      r := stats;
    }

    /**
     * `getTopPlayers`: the cached list when no refresh is due and it is live
     * and not empty; otherwise the leaderboard query, whose rows replace the
     * cached list only when the read completed.
     */
    method GetTopPlayers(limit: int, refreshSeconds: int, now: int, failAt: Option<nat>)
      returns (r: seq<SortedPlayer>)
      requires Valid() && clock <= now
      modifies this, store, cache
      ensures Valid() && clock == now
      ensures store.players == old(store.players) && store.winLog == old(store.winLog)
      ensures store.stats == old(store.stats) && refreshRequests == old(refreshRequests)
      ensures CachedTopUsable(old(lastTopRefresh), old(cache.topPlayers), limit, refreshSeconds, now) ==>
        && r == old(cache.topPlayers)[limit].value
        && IsTopNByScore(r, store.players, store.stats, limit)
        && unchanged(cache) && store.selects == old(store.selects) && lastTopRefresh == old(lastTopRefresh)
      ensures !CachedTopUsable(old(lastTopRefresh), old(cache.topPlayers), limit, refreshSeconds, now) ==>
        store.selects == old(store.selects) + 1
      ensures !CachedTopUsable(old(lastTopRefresh), old(cache.topPlayers), limit, refreshSeconds, now)
              && limit >= 0 && ReadCompletes(failAt, TopCount(store.players, store.stats, limit)) ==>
        && IsTopN(r, store.players, store.stats, limit)
        && cache.topPlayers == old(cache.topPlayers)[limit := Entry(r, now)]
        && cache.playerNames == old(cache.playerNames) && cache.playerStats == old(cache.playerStats)
        && cache.kothTotalWins == old(cache.kothTotalWins)
        && lastTopRefresh == Some(now)
      ensures !CachedTopUsable(old(lastTopRefresh), old(cache.topPlayers), limit, refreshSeconds, now)
              && !(limit >= 0 && ReadCompletes(failAt, TopCount(store.players, store.stats, limit))) ==>
        && unchanged(cache) && lastTopRefresh == old(lastTopRefresh)
        && WellRanked(r, store.players, store.stats) && |r| <= TopCount(store.players, store.stats, limit)
        && (limit < 0 ==> r == [])
    {
      CoherentLater(cache.playerStats, cache.topPlayers, store.players, store.winLog, store.stats, clock, now);
      clock := now;
      if !NeedsTopRefresh(lastTopRefresh, refreshSeconds, now) {
        var cachedResults := cache.GetTopPlayers(limit, now);
        if cachedResults.Some? && cachedResults.value != [] {
          r := cachedResults.value;
          return;
        }
      }
      var ok, rows := store.QueryTopPlayers(limit);
      var results: seq<SortedPlayer> := [];
      if ok {
        var completed;
        results, completed := ReadTopRows(rows, failAt);
        if completed {
          TopNIsTopNByScore(results, store.players, store.stats, limit);
          cache.SetTopPlayers(limit, results, now);
          lastTopRefresh := Some(now);
        } else {
          PrefixWellRanked(rows, |results|, store.players, store.stats);
        }
      }
      r := results;
    }
  }
}
