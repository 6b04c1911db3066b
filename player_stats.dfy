/**
 * `models/PlayerStats.java`: one player's wins per KotH and their total.
 */
module Models {
  import opened Common

  class PlayerStats {
    const playerUuid: Uuid
    const playerName: string
    var kothWins: map<string, int>
    var totalWins: int

    /** The class invariant: `totalWins` is the sum of the per-KotH counts, each at least one. */
    ghost predicate Valid()
      reads this
    {
      && totalWins == SumValues(kothWins)
      && forall k | k in kothWins :: kothWins[k] >= 1
    }

    constructor (uuid: Uuid, name: string)
      ensures Valid()
      ensures playerUuid == uuid && playerName == name
      ensures kothWins == map[] && totalWins == 0
    {
      playerUuid := uuid;
      playerName := name;
      kothWins := map[];
      totalWins := 0;
    }

    method GetPlayerUuid() returns (u: Uuid)
      ensures u == playerUuid
    {
      u := playerUuid;
    }

    method GetPlayerName() returns (n: string)
      ensures n == playerName
    {
      n := playerName;
    }

    /** One more win of `kothName`: that count and the total each go up by one. */
    method AddKothWin(kothName: string)
      requires Valid()
      modifies this
      ensures Valid()
      ensures kothWins == old(kothWins)[kothName := GetOrZero(old(kothWins), kothName) + 1]
      ensures totalWins == old(totalWins) + 1
    {
      var currentWins := GetOrZero(kothWins, kothName);
      SumUpdate(kothWins, kothName, currentWins + 1);
      kothWins := kothWins[kothName := currentWins + 1];
      totalWins := totalWins + 1;
    }

    /** Wins of one KotH; a KotH never won has none. */
    method GetWinsForKoth(kothName: string) returns (w: int)
      requires Valid()
      ensures kothName !in kothWins ==> w == 0
      ensures kothName in kothWins ==> w == kothWins[kothName] && w >= 1
    {
      w := GetOrZero(kothWins, kothName);
    }

    /** A copy of the per-KotH counts (a map value: later updates do not reach it). */
    method GetAllKothWins() returns (m: map<string, int>)
      ensures m == kothWins
    {
      m := kothWins;
    }

    /** The total equals the sum over all KotHs. */
    method GetTotalWins() returns (t: int)
      requires Valid()
      ensures t == SumValues(kothWins)
      ensures t >= 0
    {
      NonNegativeSum(kothWins);
      t := totalWins;
    }
  }

  /** A sum of positive counts is not negative, and is zero only for no counts. */
  lemma {:induction false} NonNegativeSum(m: map<string, int>)
    requires forall k | k in m :: m[k] >= 1
    ensures SumValues(m) >= |m|
    decreases |m|
  {
    if |m| > 0 {
      var k :| k in m;
      SumRemove(m, k);
      RemoveCard(m, k);
      NonNegativeSum(m - {k});
    }
  }
}
