/**
 * The MySQL database behind `DatabaseManager`, as a class holding the three
 * tables.  Each method is one statement (or one transaction) as the server
 * runs it; the ways a statement can fail are parameters.  `selects` counts
 * the `SELECT` queries attempted, answered or not (a read that fails at its
 * first row may never have reached the server), so a caller's contract can
 * say whether it went to the database at all.
 */
module Store {
  import opened Common
  import opened Schema
  import opened Leaderboard

  /** The entries of a batch whose statement the server accepts. */
  function Accepted(batch: seq<(Uuid, string)>, rejected: set<Uuid>): (r: seq<(Uuid, string)>)
    ensures forall e | e in r :: e in batch && e.0 !in rejected
    ensures forall e | e in batch && e.0 !in rejected :: e in r
    decreases |batch|
  {
    if batch == [] then []
    else
      var rest := Accepted(batch[..|batch| - 1], rejected);
      var last := batch[|batch| - 1];
      assert forall e | e in batch :: e in batch[..|batch| - 1] || e == last;
      if last.0 in rejected then rest else rest + [last]
  }

  /** The entries of `m` outside `rejected`. */
  function Kept(m: map<Uuid, string>, rejected: set<Uuid>): (r: map<Uuid, string>)
    ensures r.Keys == m.Keys - rejected
    ensures forall u | u in r :: r[u] == m[u]
  {
    map u | u in m && u !in rejected :: m[u]
  }

  /** Dropping the rejected statements from a batch drops exactly their players from its map. */
  lemma {:induction false} BatchMapAccepted(batch: seq<(Uuid, string)>, rejected: set<Uuid>)
    ensures BatchMap(Accepted(batch, rejected)) == Kept(BatchMap(batch), rejected)
    decreases |batch|
  {
    if batch != [] {
      var init := batch[..|batch| - 1];
      var last := batch[|batch| - 1];
      BatchMapAccepted(init, rejected);
      if last.0 !in rejected {
        var acc := Accepted(init, rejected);
        assert (acc + [last])[..|acc|] == acc;
      }
    }
  }

  class StatsStore {
    var players: map<Uuid, string>   // koth_players
    var winLog: seq<WinKey>          // koth_wins, in insertion order
    var stats: map<WinKey, int>      // koth_stats
    var selects: nat

    /** The foreign keys hold and every aggregate matches the log. */
    ghost predicate Valid()
      reads this
    {
      Consistent(players, winLog, stats)
    }

    /** Freshly created tables (`CREATE TABLE IF NOT EXISTS` on an empty schema). */
    constructor ()
      ensures Valid()
      ensures players == map[] && winLog == [] && stats == map[] && selects == 0
    {
      players := map[];
      winLog := [];
      stats := map[];
      selects := 0;
    }

    /** `INSERT_PLAYER` in autocommit mode; `fault` is a failure to connect or to run it. */
    method UpsertPlayer(uuid: Uuid, name: string, fault: bool) returns (ok: bool)
      requires Valid()
      modifies this
      ensures Valid()
      ensures ok == !fault
      ensures players == if ok then Upsert(old(players), uuid, name) else old(players)
      ensures winLog == old(winLog) && stats == old(stats) && selects == old(selects)
    {
      ok := !fault;
      if ok {
        UpsertPreservesConsistency(players, winLog, stats, uuid, name);
        players := Upsert(players, uuid, name);
      }
    }

    /**
     * `executeBatch` of `INSERT_PLAYER` statements in autocommit mode.  The
     * driver goes on after a statement the server refuses, so every entry
     * outside `rejected` is applied, in batch order.
     */
    method ExecuteBatch(batch: seq<(Uuid, string)>, rejected: set<Uuid>)
      requires Valid()
      modifies this
      ensures Valid()
      ensures players == UpsertAll(old(players), Accepted(batch, rejected))
      ensures winLog == old(winLog) && stats == old(stats) && selects == old(selects)
    {
      UpsertAllPreservesConsistency(players, winLog, stats, Accepted(batch, rejected));
      players := UpsertAll(players, Accepted(batch, rejected));
    }

    /**
     * The transaction of `registerWinAsync`: `INSERT_WIN` then `UPDATE_STATS`,
     * committed together or rolled back together.
     */
    method RecordWin(key: WinKey, fault: TxFault) returns (outcome: TxOutcome)
      requires Valid()
      modifies this
      ensures Valid()
      ensures outcome == WinTransaction(key.player in old(players), fault)
      ensures outcome.committed ==> winLog == old(winLog) + [key] && stats == BumpWins(old(stats), key)
      ensures !outcome.committed ==> winLog == old(winLog) && stats == old(stats)
      ensures players == old(players) && selects == old(selects)
    {
      outcome := WinTransaction(key.player in players, fault);
      if outcome.committed {
        WinPreservesConsistency(players, winLog, stats, key);
        winLog := winLog + [key];
        stats := BumpWins(stats, key);
      }
    }

    /**
     * `GET_PLAYER_STATS`: one row per entry of the player's result, in no
     * particular order, so that putting the rows into a map gives the result.
     */
    method QueryPlayerStats(uuid: Uuid) returns (rows: seq<StatRow>)
      modifies this
      ensures RowsToMap(rows) == PlayerStatsResult(stats, winLog, uuid)
      ensures |rows| == |PlayerStatsResult(stats, winLog, uuid)|
      ensures RowsAgree(rows, PlayerStatsResult(stats, winLog, uuid))
      ensures players == old(players) && winLog == old(winLog) && stats == old(stats)
      ensures selects == old(selects) + 1
    {
      rows := RowsOfResult(PlayerStatsResult(stats, winLog, uuid));
      selects := selects + 1;
    }

    /**
     * `GET_TOP_PLAYERS_QUERY` with `LIMIT limit`.  A negative limit is an SQL
     * error: nothing comes back.
     */
    method QueryTopPlayers(limit: int) returns (ok: bool, rows: seq<SortedPlayer>)
      modifies this
      ensures ok <==> limit >= 0
      ensures ok ==> IsTopN(rows, players, stats, limit)
      ensures !ok ==> rows == []
      ensures players == old(players) && winLog == old(winLog) && stats == old(stats)
      ensures selects == old(selects) + 1
    {
      if limit < 0 {
        ok := false;
        rows := [];
      } else {
        ok := true;
        var sorted := RankPlayers(players, stats);
        PrefixIsTopN(sorted, players, stats, limit);
        rows := sorted[..TopCount(players, stats, limit)];
      }
      selects := selects + 1;
    }
  }

  /** Every row is an entry of `result`. */
  ghost predicate RowsAgree(rows: seq<StatRow>, result: map<string, int>)
  {
    forall i | 0 <= i < |rows| :: rows[i].koth in result && result[rows[i].koth] == rows[i].wins
  }

  /** Whatever prefix of agreeing rows is read, the map it builds is a part of `result`. */
  lemma PrefixAgrees(rows: seq<StatRow>, result: map<string, int>, n: nat)
    requires RowsAgree(rows, result) && n <= |rows|
    ensures forall k | k in RowsToMap(rows[..n]) :: k in result && RowsToMap(rows[..n])[k] == result[k]
  {
    assert RowsAgree(rows[..n], result) by {
      forall i | 0 <= i < n ensures rows[..n][i] == rows[i] { }
    }
    RowsToMapAgrees(rows[..n], result);
  }

  /** The rows sent so far and the entries still to send make up the result. */
  ghost predicate SplitsResult(rows: seq<StatRow>, rest: map<string, int>, result: map<string, int>)
  {
    RowsToMap(rows) + rest == result && RowsToMap(rows).Keys !! rest.Keys && RowsAgree(rows, result)
  }

  /** Sending one more entry keeps the split. */
  lemma SendOne(rows: seq<StatRow>, rest: map<string, int>, result: map<string, int>, k: string)
    requires SplitsResult(rows, rest, result) && k in rest
    ensures SplitsResult(rows + [StatRow(k, rest[k])], rest - {k}, result)
  {
    var row := StatRow(k, rest[k]);
    assert (rows + [row])[..|rows|] == rows;
    assert rest[k] == result[k];
    assert RowsToMap(rows + [row]) == RowsToMap(rows)[k := rest[k]];
  }

  /** The rows the server sends for a result: each entry once, in no particular order. */
  method RowsOfResult(result: map<string, int>) returns (rows: seq<StatRow>)
    ensures RowsToMap(rows) == result && |rows| == |result|
    ensures RowsAgree(rows, result)
  {
    var rest := result;
    rows := [];
    while rest != map[]
      invariant SplitsResult(rows, rest, result)
      invariant |rows| + |rest| == |result|
      decreases |rest|
    {
      var k :| k in rest;
      SendOne(rows, rest, result, k);
      RemoveCard(rest, k);
      rows := rows + [StatRow(k, rest[k])];
      rest := rest - {k};
    }
    assert RowsToMap(rows) + map[] == RowsToMap(rows);
  }
}
