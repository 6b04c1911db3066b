/**
 * The MySQL schema of `database/DatabaseManager.java` as values, and the
 * meaning of its SQL statements:
 *
 *   koth_players(uuid PK, name)                    -- a map from UUID to name
 *   koth_wins(id, player_uuid FK, koth_name)       -- an append-only sequence
 *   koth_stats(player_uuid FK, koth_name, wins)    -- a map keyed by (player, KotH)
 *
 * `last_seen`, `win_time` and the auto-increment `id` carry no behaviour the
 * rest of the program reads, so they are not columns here.
 */
module Schema {
  import opened Common

  /** A `koth_wins` row, and the primary key of a `koth_stats` row. */
  datatype WinKey = WinKey(player: Uuid, koth: string)

  /** A row of `GET_PLAYER_STATS`: `koth_name`, `wins`. */
  datatype StatRow = StatRow(koth: string, wins: int)

  // ---------------------------------------------------------------------
  // Writes

  /** `INSERT_PLAYER`: insert, or on a duplicate UUID overwrite the name. */
  function Upsert(players: map<Uuid, string>, uuid: Uuid, name: string): (r: map<Uuid, string>)
    ensures r.Keys == players.Keys + {uuid} && r[uuid] == name
    ensures forall u | u in players && u != uuid :: r[u] == players[u]
  {
    players[uuid := name]
  }

  /** Upserting the same row twice is upserting it once; a later name wins. */
  lemma UpsertIdempotent(players: map<Uuid, string>, uuid: Uuid, first: string, second: string)
    ensures Upsert(Upsert(players, uuid, first), uuid, first) == Upsert(players, uuid, first)
    ensures Upsert(Upsert(players, uuid, first), uuid, second) == Upsert(players, uuid, second)
  {
  }

  /** A batch of `INSERT_PLAYER` statements run in order. */
  function UpsertAll(players: map<Uuid, string>, batch: seq<(Uuid, string)>): map<Uuid, string>
    decreases |batch|
  {
    if batch == [] then players
    else
      var last := batch[|batch| - 1];
      Upsert(UpsertAll(players, batch[..|batch| - 1]), last.0, last.1)
  }

  /** The entries of a batch as a map, a later entry for a UUID replacing an earlier one. */
  function BatchMap(batch: seq<(Uuid, string)>): map<Uuid, string>
    decreases |batch|
  {
    if batch == [] then map[]
    else
      var last := batch[|batch| - 1];
      BatchMap(batch[..|batch| - 1])[last.0 := last.1]
  }

  /** Running a batch is overwriting the table with the batch's entries. */
  lemma {:induction false} UpsertAllIsUnion(players: map<Uuid, string>, batch: seq<(Uuid, string)>)
    ensures UpsertAll(players, batch) == players + BatchMap(batch)
    decreases |batch|
  {
    if batch != [] {
      UpsertAllIsUnion(players, batch[..|batch| - 1]);
    }
  }

  /** `UPDATE_STATS`: insert `wins = 1`, or on a duplicate key `wins = wins + 1`. */
  function BumpWins(stats: map<WinKey, int>, key: WinKey): (r: map<WinKey, int>)
    ensures r.Keys == stats.Keys + {key}
    ensures r[key] == GetOrZero(stats, key) + 1
    ensures forall k | k in stats && k != key :: r[k] == stats[k]
  {
    if key in stats then stats[key := stats[key] + 1] else stats[key := 1]
  }

  /** How `connect(callback, true)` can end for the win transaction. */
  datatype TxFault =
    | NoFault
    | ConnectionFault   // getConnection throws: the callback never runs
    | StatementFault    // INSERT_WIN or UPDATE_STATS throws: rolled back
    | CommitFault       // commit() throws after the callback returned: rolled back

  /**
   * What the win transaction leaves behind: whether the callback reached its
   * last line (`success.set(true)`), and whether the writes were committed.
   */
  datatype TxOutcome = TxOutcome(callbackDone: bool, committed: bool)

  /**
   * The win transaction.  A player missing from `koth_players` makes
   * `INSERT_WIN` violate its foreign key, which is a statement failure.
   */
  function WinTransaction(playerKnown: bool, fault: TxFault): (o: TxOutcome)
    ensures o.committed <==> playerKnown && fault == NoFault
    ensures o.committed ==> o.callbackDone
  {
    match fault
    case ConnectionFault => TxOutcome(false, false)
    case StatementFault => TxOutcome(false, false)
    case CommitFault => TxOutcome(playerKnown, false)
    case NoFault => TxOutcome(playerKnown, playerKnown)
  }

  // ---------------------------------------------------------------------
  // Consistency of the three tables

  /** Both foreign keys hold. */
  ghost predicate ForeignKeys(players: map<Uuid, string>, winLog: seq<WinKey>, stats: map<WinKey, int>)
  {
    && (forall i | 0 <= i < |winLog| :: winLog[i].player in players)
    && (forall key | key in stats :: key.player in players)
  }

  /** Every `koth_stats.wins` is the number of `koth_wins` rows for its key; other keys have no row. */
  ghost predicate CountsMatchLog(winLog: seq<WinKey>, stats: map<WinKey, int>)
  {
    && (forall key | key in stats :: stats[key] >= 1)
    && (forall key :: GetOrZero(stats, key) == multiset(winLog)[key])
  }

  ghost predicate Consistent(players: map<Uuid, string>, winLog: seq<WinKey>, stats: map<WinKey, int>)
  {
    ForeignKeys(players, winLog, stats) && CountsMatchLog(winLog, stats)
  }

  /** A committed win (one log row plus the aggregate upsert) keeps the tables consistent. */
  lemma WinPreservesConsistency(players: map<Uuid, string>, winLog: seq<WinKey>, stats: map<WinKey, int>,
                                key: WinKey)
    requires Consistent(players, winLog, stats)
    requires key.player in players
    ensures Consistent(players, winLog + [key], BumpWins(stats, key))
  {
    var log' := winLog + [key];
    assert multiset(log') == multiset(winLog) + multiset{key};
    forall i | 0 <= i < |log'|
      ensures log'[i].player in players
    {
      if i < |winLog| { assert log'[i] == winLog[i]; }
    }
  }

  /** Upserting a player never breaks consistency (no row is removed). */
  lemma UpsertPreservesConsistency(players: map<Uuid, string>, winLog: seq<WinKey>, stats: map<WinKey, int>,
                                   uuid: Uuid, name: string)
    requires Consistent(players, winLog, stats)
    ensures Consistent(Upsert(players, uuid, name), winLog, stats)
  {
  }

  /** Upserting many players never breaks consistency. */
  lemma {:induction false} UpsertAllPreservesConsistency(players: map<Uuid, string>, winLog: seq<WinKey>,
                                                         stats: map<WinKey, int>, batch: seq<(Uuid, string)>)
    requires Consistent(players, winLog, stats)
    ensures Consistent(UpsertAll(players, batch), winLog, stats)
    decreases |batch|
  {
    if batch != [] {
      var last := batch[|batch| - 1];
      UpsertAllPreservesConsistency(players, winLog, stats, batch[..|batch| - 1]);
      UpsertPreservesConsistency(UpsertAll(players, batch[..|batch| - 1]), winLog, stats, last.0, last.1);
    }
  }

  // ---------------------------------------------------------------------
  // GET_PLAYER_STATS

  /** `SELECT DISTINCT koth_name FROM koth_wins`. */
  function LoggedKoths(winLog: seq<WinKey>): set<string>
  {
    set i | 0 <= i < |winLog| :: winLog[i].koth
  }

  /**
   * `GET_PLAYER_STATS` as a map: the player's `koth_stats` rows whose KotH
   * appears in `koth_wins`.  The rows' `ORDER BY wins DESC` does not show
   * in a map.
   */
  function PlayerStatsResult(stats: map<WinKey, int>, winLog: seq<WinKey>, uuid: Uuid): map<string, int>
  {
    map k | k in LoggedKoths(winLog) && WinKey(uuid, k) in stats :: stats[WinKey(uuid, k)]
  }

  /**
   * On consistent tables the join with `koth_wins` filters nothing: the
   * result holds a KotH exactly when the player has won it, with the number
   * of times the log records.
   */
  lemma {:induction false} PlayerStatsMatchLog(players: map<Uuid, string>, winLog: seq<WinKey>,
                                               stats: map<WinKey, int>, uuid: Uuid, kothName: string)
    requires Consistent(players, winLog, stats)
    ensures var r := PlayerStatsResult(stats, winLog, uuid);
      && (kothName in r <==> WinKey(uuid, kothName) in winLog)
      && (kothName in r ==> r[kothName] == multiset(winLog)[WinKey(uuid, kothName)])
  {
    var key := WinKey(uuid, kothName);
    if key in stats {
      assert GetOrZero(stats, key) == multiset(winLog)[key];
      assert key in multiset(winLog);
      var i :| 0 <= i < |winLog| && winLog[i] == key;
      assert kothName in LoggedKoths(winLog);
    } else {
      assert GetOrZero(stats, key) == multiset(winLog)[key];
    }
  }

  /** A player who never won anything gets an empty map, not an error. */
  lemma NoHistoryNoStats(players: map<Uuid, string>, winLog: seq<WinKey>, stats: map<WinKey, int>, uuid: Uuid)
    requires Consistent(players, winLog, stats)
    requires forall i | 0 <= i < |winLog| :: winLog[i].player != uuid
    ensures PlayerStatsResult(stats, winLog, uuid) == map[]
  {
    forall k ensures k !in PlayerStatsResult(stats, winLog, uuid) {
      PlayerStatsMatchLog(players, winLog, stats, uuid, k);
      assert WinKey(uuid, k) !in winLog;
    }
  }

  /** On consistent tables every `koth_stats` row has a matching `koth_wins` row. */
  lemma StatsKeyLogged(players: map<Uuid, string>, winLog: seq<WinKey>, stats: map<WinKey, int>, key: WinKey)
    requires Consistent(players, winLog, stats) && key in stats
    ensures key.koth in LoggedKoths(winLog)
  {
    assert GetOrZero(stats, key) == multiset(winLog)[key];
    assert key in multiset(winLog);
    var i :| 0 <= i < |winLog| && winLog[i] == key;
  }

  /** Logging a win adds its KotH to the logged ones. */
  lemma LoggedKothsAppend(winLog: seq<WinKey>, key: WinKey)
    ensures LoggedKoths(winLog + [key]) == LoggedKoths(winLog) + {key.koth}
  {
    var log' := winLog + [key];
    forall k | k in LoggedKoths(log') ensures k in LoggedKoths(winLog) + {key.koth} {
      var i :| 0 <= i < |log'| && log'[i].koth == k;
      if i < |winLog| { assert log'[i] == winLog[i]; }
    }
    forall k | k in LoggedKoths(winLog) ensures k in LoggedKoths(log') {
      var i :| 0 <= i < |winLog| && winLog[i].koth == k;
      assert log'[i] == winLog[i];
    }
    assert log'[|winLog|] == key;
  }

  /**
   * A committed win changes one player's `GET_PLAYER_STATS` result, and only
   * by one more win for the KotH; every other player's result stays.
   */
  lemma WinUpdatesPlayerStats(players: map<Uuid, string>, winLog: seq<WinKey>, stats: map<WinKey, int>,
                              key: WinKey, uuid: Uuid)
    requires Consistent(players, winLog, stats)
    ensures var before := PlayerStatsResult(stats, winLog, uuid);
      PlayerStatsResult(BumpWins(stats, key), winLog + [key], uuid)
        == if uuid == key.player then before[key.koth := GetOrZero(before, key.koth) + 1] else before
  {
    var before := PlayerStatsResult(stats, winLog, uuid);
    var after := PlayerStatsResult(BumpWins(stats, key), winLog + [key], uuid);
    LoggedKothsAppend(winLog, key);
    var expected := if uuid == key.player then before[key.koth := GetOrZero(before, key.koth) + 1] else before;
    forall k ensures k in after <==> k in expected {
      if WinKey(uuid, k) in stats { StatsKeyLogged(players, winLog, stats, WinKey(uuid, k)); }
    }
    forall k | k in after ensures after[k] == expected[k] {
      if WinKey(uuid, k) in stats { StatsKeyLogged(players, winLog, stats, WinKey(uuid, k)); }
    }
  }

  /** The `while (rs.next())` loop: each row is `put` into the map in order. */
  function RowsToMap(rows: seq<StatRow>): map<string, int>
    decreases |rows|
  {
    if rows == [] then map[]
    else
      var last := rows[|rows| - 1];
      RowsToMap(rows[..|rows| - 1])[last.koth := last.wins]
  }

  /** Rows that each agree with `m` put a part of `m` into the map, whichever prefix is read. */
  lemma {:induction false} RowsToMapAgrees(rows: seq<StatRow>, m: map<string, int>)
    requires forall i | 0 <= i < |rows| :: rows[i].koth in m && m[rows[i].koth] == rows[i].wins
    ensures forall k | k in RowsToMap(rows) :: k in m && RowsToMap(rows)[k] == m[k]
    decreases |rows|
  {
    if rows != [] {
      RowsToMapAgrees(rows[..|rows| - 1], m);
    }
  }

  // ---------------------------------------------------------------------
  // GET_TOP_PLAYERS_QUERY

  /** The players the inner join of `koth_players` with `koth_stats` keeps. */
  function Ranked(players: map<Uuid, string>, stats: map<WinKey, int>): set<Uuid>
  {
    set key | key in stats && key.player in players :: key.player
  }

  /** The KotHs of one player's `koth_stats` rows. */
  function KothsOf(stats: map<WinKey, int>, uuid: Uuid): set<string>
  {
    set key | key in stats && key.player == uuid :: key.koth
  }

  /** One player's `koth_stats` rows, KotH to wins: what `GROUP BY` gathers. */
  function RowsOf(stats: map<WinKey, int>, uuid: Uuid): map<string, int>
  {
    map k | k in KothsOf(stats, uuid) && WinKey(uuid, k) in stats :: stats[WinKey(uuid, k)]
  }

  /** `SUM(s.wins)` for one player. */
  ghost function TotalOf(stats: map<WinKey, int>, uuid: Uuid): int
  {
    SumValues(RowsOf(stats, uuid))
  }

  /** The number of rows the leaderboard query returns: `LIMIT` caps the ranked players. */
  function TopCount(players: map<Uuid, string>, stats: map<WinKey, int>, limit: int): nat
  {
    var n := |Ranked(players, stats)|;
    if limit < 0 then 0 else if limit < n then limit else n
  }

  /** The players with at least one `koth_stats` row. */
  function PlayersWithStats(stats: map<WinKey, int>): set<Uuid>
  {
    set key | key in stats :: key.player
  }

  /** With the foreign key in place the join drops nobody: the ranked players do not depend on names. */
  lemma RankedUnderForeignKeys(players: map<Uuid, string>, stats: map<WinKey, int>)
    requires forall key | key in stats :: key.player in players
    ensures Ranked(players, stats) == PlayersWithStats(stats)
  {
  }
}
