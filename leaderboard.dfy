/**
 * `GET_TOP_PLAYERS_QUERY`: sum each player's wins, order by the sum
 * descending, keep `LIMIT` rows.  SQL leaves the order of equal sums open,
 * and so does this specification.
 */
module Leaderboard {
  import opened Common
  import opened Schema

  /** The players that appear in a list of rows. */
  function Uuids(rows: seq<SortedPlayer>): set<Uuid>
  {
    set i | 0 <= i < |rows| :: rows[i].uuid
  }

  predicate NonIncreasing(rows: seq<SortedPlayer>)
  {
    forall i, j | 0 <= i < j < |rows| :: rows[i].totalWins >= rows[j].totalWins
  }

  predicate DistinctPlayers(rows: seq<SortedPlayer>)
  {
    forall i, j | 0 <= i < j < |rows| :: rows[i].uuid != rows[j].uuid
  }

  /** A row whose player the join keeps and whose wins are that player's sum. */
  ghost predicate RowScored(row: SortedPlayer, players: map<Uuid, string>, stats: map<WinKey, int>)
  {
    row.uuid in Ranked(players, stats) && row.totalWins == TotalOf(stats, row.uuid)
  }

  /** A row as the query returns it: a ranked player, its name and its summed wins. */
  ghost predicate RowCorrect(row: SortedPlayer, players: map<Uuid, string>, stats: map<WinKey, int>)
  {
    RowScored(row, players, stats) && row.name == players[row.uuid]
  }

  /** Correct rows, one per player, in non-increasing order of wins. */
  ghost predicate WellRanked(rows: seq<SortedPlayer>, players: map<Uuid, string>, stats: map<WinKey, int>)
  {
    && (forall i | 0 <= i < |rows| :: RowCorrect(rows[i], players, stats))
    && DistinctPlayers(rows)
    && NonIncreasing(rows)
  }

  /**
   * The leaderboard query's result for a non-negative limit: well ranked,
   * as long as the limit allows, and no player left out has more wins than
   * any player kept.
   */
  ghost predicate IsTopN(rows: seq<SortedPlayer>, players: map<Uuid, string>, stats: map<WinKey, int>, limit: int)
  {
    && WellRanked(rows, players, stats)
    && |rows| == TopCount(players, stats, limit)
    && forall p | p in Ranked(players, stats) && p !in Uuids(rows) ::
         forall i | 0 <= i < |rows| :: TotalOf(stats, p) <= rows[i].totalWins
  }

  /**
   * The leaderboard's result with the names left out of account: what stays
   * true of a cached list when a player's name changes later.
   */
  ghost predicate IsTopNByScore(rows: seq<SortedPlayer>, players: map<Uuid, string>, stats: map<WinKey, int>, limit: int)
  {
    && (forall i | 0 <= i < |rows| :: RowScored(rows[i], players, stats))
    && DistinctPlayers(rows)
    && NonIncreasing(rows)
    && |rows| == TopCount(players, stats, limit)
    && forall p | p in Ranked(players, stats) && p !in Uuids(rows) ::
         forall i | 0 <= i < |rows| :: TotalOf(stats, p) <= rows[i].totalWins
  }

  /** The full result is in particular right by score. */
  lemma TopNIsTopNByScore(rows: seq<SortedPlayer>, players: map<Uuid, string>, stats: map<WinKey, int>, limit: int)
    requires IsTopN(rows, players, stats, limit)
    ensures IsTopNByScore(rows, players, stats, limit)
  {
    assert forall i | 0 <= i < |rows| :: RowCorrect(rows[i], players, stats);
  }

  /** Only the set of ranked players matters to a ranking by score, not their names. */
  lemma ByScoreSameRanked(rows: seq<SortedPlayer>, players: map<Uuid, string>, players': map<Uuid, string>,
                          stats: map<WinKey, int>, limit: int)
    requires IsTopNByScore(rows, players, stats, limit)
    requires Ranked(players, stats) == Ranked(players', stats)
    ensures IsTopNByScore(rows, players', stats, limit)
  {
    forall i | 0 <= i < |rows| ensures RowScored(rows[i], players', stats) {
      assert RowScored(rows[i], players, stats);
    }
  }

  /** Inserts a row before the first row with fewer wins. */
  function InsertDesc(rows: seq<SortedPlayer>, x: SortedPlayer): seq<SortedPlayer>
    decreases |rows|
  {
    if rows == [] || x.totalWins >= rows[0].totalWins then [x] + rows
    else [rows[0]] + InsertDesc(rows[1..], x)
  }

  /** Insertion adds exactly one occurrence of `x`. */
  lemma {:induction false} InsertDescElems(rows: seq<SortedPlayer>, x: SortedPlayer)
    ensures multiset(InsertDesc(rows, x)) == multiset(rows) + multiset{x}
    decreases |rows|
  {
    if rows != [] && x.totalWins < rows[0].totalWins {
      InsertDescElems(rows[1..], x);
      assert rows == [rows[0]] + rows[1..];
    }
  }

  /** A row with at least the wins of every row after it keeps a list non-increasing. */
  lemma ConsNonIncreasing(a: SortedPlayer, r: seq<SortedPlayer>)
    requires NonIncreasing(r)
    requires forall y | y in r :: a.totalWins >= y.totalWins
    ensures NonIncreasing([a] + r)
  {
    var l := [a] + r;
    forall i, j | 0 <= i < j < |l| ensures l[i].totalWins >= l[j].totalWins {
      assert l[j] == r[j - 1];
      if i > 0 { assert l[i] == r[i - 1]; }
    }
  }

  /** A row whose player is not among the following rows keeps the players distinct. */
  lemma ConsDistinct(a: SortedPlayer, r: seq<SortedPlayer>)
    requires DistinctPlayers(r)
    requires forall y | y in r :: a.uuid != y.uuid
    ensures DistinctPlayers([a] + r)
  {
    var l := [a] + r;
    forall i, j | 0 <= i < j < |l| ensures l[i].uuid != l[j].uuid {
      assert l[j] == r[j - 1];
      if i > 0 { assert l[i] == r[i - 1]; }
    }
  }

  /** Insertion keeps the order. */
  lemma {:induction false} InsertDescOrdered(rows: seq<SortedPlayer>, x: SortedPlayer)
    requires NonIncreasing(rows)
    ensures NonIncreasing(InsertDesc(rows, x))
    decreases |rows|
  {
    if rows == [] || x.totalWins >= rows[0].totalWins {
      forall y | y in rows ensures x.totalWins >= y.totalWins {
        var j :| 0 <= j < |rows| && rows[j] == y;
        assert j == 0 || rows[0].totalWins >= rows[j].totalWins;
      }
      ConsNonIncreasing(x, rows);
    } else {
      var tail := rows[1..];
      assert NonIncreasing(tail) by {
        forall i, j | 0 <= i < j < |tail| ensures tail[i].totalWins >= tail[j].totalWins {
          assert tail[i] == rows[i + 1] && tail[j] == rows[j + 1];
        }
      }
      InsertDescOrdered(tail, x);
      InsertDescElems(tail, x);
      var r := InsertDesc(tail, x);
      forall y | y in r ensures rows[0].totalWins >= y.totalWins {
        assert y in multiset(r);
        if y != x {
          var j :| 0 <= j < |tail| && tail[j] == y;
          assert rows[j + 1] == y;
        }
      }
      ConsNonIncreasing(rows[0], r);
    }
  }

  /** Insertion of a new player keeps the players distinct. */
  lemma {:induction false} InsertDescDistinct(rows: seq<SortedPlayer>, x: SortedPlayer)
    requires DistinctPlayers(rows) && x.uuid !in Uuids(rows)
    ensures DistinctPlayers(InsertDesc(rows, x))
    decreases |rows|
  {
    if rows == [] || x.totalWins >= rows[0].totalWins {
      forall y | y in rows ensures x.uuid != y.uuid {
        var j :| 0 <= j < |rows| && rows[j] == y;
      }
      ConsDistinct(x, rows);
    } else {
      var tail := rows[1..];
      assert DistinctPlayers(tail) by {
        forall i, j | 0 <= i < j < |tail| ensures tail[i].uuid != tail[j].uuid {
          assert tail[i] == rows[i + 1] && tail[j] == rows[j + 1];
        }
      }
      assert x.uuid !in Uuids(tail) by {
        forall i | 0 <= i < |tail| ensures tail[i].uuid != x.uuid { assert rows[i + 1] == tail[i]; }
      }
      InsertDescDistinct(tail, x);
      InsertDescElems(tail, x);
      var r := InsertDesc(tail, x);
      forall y | y in r ensures rows[0].uuid != y.uuid {
        assert y in multiset(r);
        if y != x {
          var j :| 0 <= j < |tail| && tail[j] == y;
          assert rows[j + 1] == y;
        } else {
          assert rows[0].uuid in Uuids(rows);
        }
      }
      ConsDistinct(rows[0], r);
    }
  }

  /** Insertion adds exactly `x`, keeps the order, and keeps players distinct when `x` is new. */
  lemma InsertDescProperties(rows: seq<SortedPlayer>, x: SortedPlayer)
    requires NonIncreasing(rows)
    ensures |InsertDesc(rows, x)| == |rows| + 1
    ensures forall y :: y in InsertDesc(rows, x) <==> y in rows || y == x
    ensures NonIncreasing(InsertDesc(rows, x))
    ensures DistinctPlayers(rows) && x.uuid !in Uuids(rows) ==> DistinctPlayers(InsertDesc(rows, x))
  {
    InsertDescElems(rows, x);
    var r := InsertDesc(rows, x);
    assert |r| == |multiset(r)|;
    forall y ensures y in r <==> y in rows || y == x {
      assert y in r <==> y in multiset(r);
      assert y in rows <==> y in multiset(rows);
    }
    InsertDescOrdered(rows, x);
    if DistinctPlayers(rows) && x.uuid !in Uuids(rows) {
      InsertDescDistinct(rows, x);
    }
  }

  /** Membership in a list gives membership of its player. */
  lemma UuidsOfInsert(rows: seq<SortedPlayer>, x: SortedPlayer)
    requires forall y :: y in InsertDesc(rows, x) <==> y in rows || y == x
    ensures Uuids(InsertDesc(rows, x)) == Uuids(rows) + {x.uuid}
  {
    var r := InsertDesc(rows, x);
    forall u | u in Uuids(r) ensures u in Uuids(rows) + {x.uuid} {
      var i :| 0 <= i < |r| && r[i].uuid == u;
      assert r[i] in r;
      if r[i] != x {
        var j :| 0 <= j < |rows| && rows[j] == r[i];
      }
    }
    forall u | u in Uuids(rows) + {x.uuid} ensures u in Uuids(r) {
      if u == x.uuid {
        assert x in r;
        var i :| 0 <= i < |r| && r[i] == x;
      } else {
        var j :| 0 <= j < |rows| && rows[j].uuid == u;
        assert rows[j] in r;
        var i :| 0 <= i < |r| && r[i] == rows[j];
      }
    }
  }

  /** A partial ranking of the players in `done`. */
  ghost predicate RanksExactly(sorted: seq<SortedPlayer>, done: set<Uuid>,
                               players: map<Uuid, string>, stats: map<WinKey, int>)
  {
    WellRanked(sorted, players, stats) && Uuids(sorted) == done && |sorted| == |done|
  }

  /** Inserting a correct row for a new player ranks one player more. */
  lemma InsertWellRanked(sorted: seq<SortedPlayer>, done: set<Uuid>, row: SortedPlayer,
                         players: map<Uuid, string>, stats: map<WinKey, int>)
    requires RanksExactly(sorted, done, players, stats)
    requires RowCorrect(row, players, stats) && row.uuid !in done
    ensures RanksExactly(InsertDesc(sorted, row), done + {row.uuid}, players, stats)
  {
    InsertDescProperties(sorted, row);
    UuidsOfInsert(sorted, row);
    var next := InsertDesc(sorted, row);
    forall i | 0 <= i < |next| ensures RowCorrect(next[i], players, stats) {
      assert next[i] in next;
      if next[i] != row {
        var j :| 0 <= j < |sorted| && sorted[j] == next[i];
      }
    }
  }

  /** `SUM(wins)` over one player's rows, taken row by row. */
  method SumRows(m: map<string, int>) returns (s: int)
    ensures s == SumValues(m)
  {
    var rest := m;
    s := 0;
    while rest != map[]
      invariant s + SumValues(rest) == SumValues(m)
      decreases |rest|
    {
      var k :| k in rest;
      SumRemove(rest, k);
      RemoveCard(rest, k);
      s := s + rest[k];
      rest := rest - {k};
    }
  }

  /** One ranked player's row: its name joined from `koth_players` and its summed wins. */
  method PlayerRow(players: map<Uuid, string>, stats: map<WinKey, int>, p: Uuid) returns (row: SortedPlayer)
    requires p in Ranked(players, stats)
    ensures row.uuid == p && RowCorrect(row, players, stats)
  {
    var total := SumRows(RowsOf(stats, p));
    row := SortedPlayer(p, players[p], total);
  }

  /** Adds one more ranked player's row to a partial ranking. */
  method RankOne(sorted: seq<SortedPlayer>, players: map<Uuid, string>, stats: map<WinKey, int>,
                 p: Uuid, ghost done: set<Uuid>) returns (next: seq<SortedPlayer>)
    requires RanksExactly(sorted, done, players, stats)
    requires p in Ranked(players, stats) && p !in done
    ensures RanksExactly(next, done + {p}, players, stats)
  {
    var row := PlayerRow(players, stats, p);
    InsertWellRanked(sorted, done, row, players, stats);
    next := InsertDesc(sorted, row);
  }

  /** Ranks every player the join keeps, best first: the query before `LIMIT`. */
  method RankPlayers(players: map<Uuid, string>, stats: map<WinKey, int>) returns (sorted: seq<SortedPlayer>)
    ensures RanksExactly(sorted, Ranked(players, stats), players, stats)
  {
    var ranked := Ranked(players, stats);
    var todo := ranked;
    ghost var done: set<Uuid> := {};
    sorted := [];
    assert Uuids(sorted) == {};
    while todo != {}
      invariant todo + done == ranked && todo !! done
      invariant RanksExactly(sorted, done, players, stats)
      decreases todo
    {
      var p :| p in todo;
      sorted := RankOne(sorted, players, stats, p, done);
      todo := todo - {p};
      done := done + {p};
    }
    assert done == ranked;
  }

  /** Any prefix of a well-ranked list is well ranked. */
  lemma PrefixWellRanked(sorted: seq<SortedPlayer>, n: nat, players: map<Uuid, string>, stats: map<WinKey, int>)
    requires WellRanked(sorted, players, stats) && n <= |sorted|
    ensures WellRanked(sorted[..n], players, stats)
  {
    var rows := sorted[..n];
    assert forall i | 0 <= i < |rows| :: rows[i] == sorted[i];
  }

  /** A player missing from a prefix of a ranking has no more wins than any row of the prefix. */
  lemma LeftOutNotBetter(sorted: seq<SortedPlayer>, n: nat, p: Uuid, players: map<Uuid, string>, stats: map<WinKey, int>)
    requires WellRanked(sorted, players, stats) && n <= |sorted|
    requires p in Uuids(sorted) && p !in Uuids(sorted[..n])
    ensures forall i | 0 <= i < n :: TotalOf(stats, p) <= sorted[i].totalWins
  {
    var j :| 0 <= j < |sorted| && sorted[j].uuid == p;
    assert sorted[j].totalWins == TotalOf(stats, p);
    assert j >= n;
  }

  /** Cutting a full ranking at the limit gives the query's result. */
  lemma PrefixIsTopN(sorted: seq<SortedPlayer>, players: map<Uuid, string>, stats: map<WinKey, int>, limit: int)
    requires RanksExactly(sorted, Ranked(players, stats), players, stats)
    requires limit >= 0
    ensures IsTopN(sorted[..TopCount(players, stats, limit)], players, stats, limit)
  {
    var n := TopCount(players, stats, limit);
    var rows := sorted[..n];
    PrefixWellRanked(sorted, n, players, stats);
    forall p | p in Ranked(players, stats) && p !in Uuids(rows)
      ensures forall i | 0 <= i < |rows| :: TotalOf(stats, p) <= rows[i].totalWins
    {
      LeftOutNotBetter(sorted, n, p, players, stats);
      assert forall i | 0 <= i < |rows| :: rows[i] == sorted[i];
    }
  }
}
