/**
 * Values shared by the whole model: an Option for Java's nullable returns,
 * player identities, leaderboard rows and the sum of a map's values.
 */
module Common {

  /** Java's `null`-or-value returns (`getIfPresent`, `getPlayerStats`, ...). */
  datatype Option<T> = None | Some(value: T)

  /** A player's `java.util.UUID`; only its identity matters here. */
  datatype Uuid = Uuid(bits: nat)

  /**
   * One leaderboard row, as `SortedPlayer` holds it and as the
   * `name`/`uuid`/`totalWins` keys of a top-players map hold it.
   */
  datatype SortedPlayer = SortedPlayer(uuid: Uuid, name: string, totalWins: int)

  /** `KothWinDTO`: who won which KotH. */
  datatype KothWin = KothWin(playerUuid: Uuid, playerName: string, kothName: string)

  /** The value a Java `Map.getOrDefault(k, 0)` returns. */
  function GetOrZero<K>(m: map<K, int>, k: K): int
  {
    if k in m then m[k] else 0
  }

  /** The sum of all values of a map, in no particular order. */
  ghost function SumValues<K>(m: map<K, int>): int
    decreases |m|
  {
    if |m| == 0 then 0
    else
      var k :| k in m;
      m[k] + SumValues(m - {k})
  }

  /** Removing a present key shrinks a map by exactly one entry. */
  lemma RemoveCard<K, V>(m: map<K, V>, k: K)
    requires k in m
    ensures |m - {k}| == |m| - 1
  {
    assert (m - {k}).Keys == m.Keys - {k};
  }

  /** A non-empty map's sum is some entry plus the sum of the rest. */
  lemma SumUnfold<K>(m: map<K, int>) returns (j: K)
    requires |m| > 0
    ensures j in m && SumValues(m) == m[j] + SumValues(m - {j})
  {
    j :| j in m && SumValues(m) == m[j] + SumValues(m - {j});
  }

  /** Any key can be taken out of the sum first. */
  lemma {:induction false} SumRemove<K>(m: map<K, int>, k: K)
    requires k in m
    ensures SumValues(m) == m[k] + SumValues(m - {k})
    decreases |m|
  {
    RemoveCard(m, k);
    var j := SumUnfold(m);
    if j != k {
      RemoveCard(m, j);
      var both := m - {j} - {k};
      assert m - {k} - {j} == both;
      SumRemove(m - {j}, k);
      SumRemove(m - {k}, j);
    }
  }

  /** Setting a key to `v` moves the sum by `v` minus the key's old value (0 if absent). */
  lemma SumUpdate<K>(m: map<K, int>, k: K, v: int)
    ensures SumValues(m[k := v]) == SumValues(m) - GetOrZero(m, k) + v
  {
    SumRemove(m[k := v], k);
    if k in m {
      SumRemove(m, k);
      assert m[k := v] - {k} == m - {k};
    } else {
      assert m[k := v] - {k} == m;
    }
  }
}
