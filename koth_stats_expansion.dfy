/**
 * `hook/KothStatsExpansion.java`: the PlaceholderAPI identifiers
 * `total_wins`, `wins_<koth>` and `top_<position>_<field>`.
 *
 * The per-player counts come from cache calls this model does not see, so
 * they are the function parameters `totalWins` and `kothWins`.  The
 * leaderboard fetch (`getTopPlayers(limit).get()`) is the parameter
 * `fetched`: the list, or `None` when `get()` throws.
 */
module Hook {
  import opened Common
  import opened JavaText

  /** `handleTopPlaceholder`. */
  function HandleTopPlaceholder(identifier: string, fetched: Option<seq<SortedPlayer>>): (r: string)
    ensures r == "0" || r == "Ninguno"
         || (fetched.Some? && exists i | 0 <= i < |fetched.value| ::
               r == fetched.value[i].name || r == IntToString(fetched.value[i].totalWins))
  {
    var parts := JavaSplit(identifier, '_');
    if |parts| < 3 then "0"
    else
      var position := ParseInt(parts[1]);
      var field := parts[2];
      if position.None? then "0"                 // NumberFormatException
      else if fetched.None? then "0"             // InterruptedException, ExecutionException
      else
        var topPlayers := fetched.value;
        if position.value <= 0 || position.value > |topPlayers| then
          (if field == "name" then "Ninguno" else "0")
        else
          var playerData := topPlayers[position.value - 1];
          if field == "name" then playerData.name
          else if field == "wins" then IntToString(playerData.totalWins)
          else "0"
  }

  predicate StartsWith(s: string, prefix: string)
  {
    |prefix| <= |s| && s[..|prefix|] == prefix
  }

  /** `onRequest`: `None` is Java's `null` (an identifier this expansion does not know). */
  function OnRequest(player: Option<Uuid>, identifier: string,
                     totalWins: Uuid -> int, kothWins: (Uuid, string) -> int,
                     fetched: Option<seq<SortedPlayer>>): (r: Option<string>)
    ensures r.None? <==> player.Some? && identifier != "total_wins"
                         && !StartsWith(identifier, "wins_") && !StartsWith(identifier, "top_")
    ensures player.None? ==> r == Some("")
  {
    if player.None? then Some("")
    else
      var uuid := player.value;
      if identifier == "total_wins" then Some(IntToString(totalWins(uuid)))
      else if StartsWith(identifier, "wins_") then Some(IntToString(kothWins(uuid, identifier[5..])))
      else if StartsWith(identifier, "top_") then Some(HandleTopPlaceholder(identifier, fetched))
      else None
  }

  /** `total_wins` renders the total so that `Integer.parseInt` reads it back. */
  lemma TotalWinsReadsBack(uuid: Uuid, totalWins: Uuid -> int, kothWins: (Uuid, string) -> int,
                           fetched: Option<seq<SortedPlayer>>)
    requires INT_MIN <= totalWins(uuid) <= INT_MAX
    ensures var r := OnRequest(Some(uuid), "total_wins", totalWins, kothWins, fetched);
      r.Some? && ParseInt(r.value) == Some(totalWins(uuid))
  {
    IntToStringRoundTrip(totalWins(uuid));
  }

  /** `wins_<koth>` asks for exactly the KotH named after the prefix, for every name. */
  lemma WinsNamesSuffix(uuid: Uuid, kothName: string, totalWins: Uuid -> int,
                        kothWins: (Uuid, string) -> int, fetched: Option<seq<SortedPlayer>>)
    ensures OnRequest(Some(uuid), "wins_" + kothName, totalWins, kothWins, fetched)
         == Some(IntToString(kothWins(uuid, kothName)))
  {
    var id := "wins_" + kothName;
    assert id[..5] == "wins_" && id[5..] == kothName;
    assert id != "total_wins" by { assert id[0] != "total_wins"[0]; }
  }

  /** Identifiers that start with `top_` go to the leaderboard handler. */
  lemma TopGoesToHandler(uuid: Uuid, rest: string, totalWins: Uuid -> int,
                         kothWins: (Uuid, string) -> int, fetched: Option<seq<SortedPlayer>>)
    ensures OnRequest(Some(uuid), "top_" + rest, totalWins, kothWins, fetched)
         == Some(HandleTopPlaceholder("top_" + rest, fetched))
  {
    var id := "top_" + rest;
    assert id[..4] == "top_";
    assert id != "total_wins" by { assert id[2] != "total_wins"[2]; }
    assert !StartsWith(id, "wins_") by { assert id[0] != 'w'; }
  }

  /** The identifier `top_<p>_<field>` with `p` rendered by `String.valueOf`. */
  function TopIdentifier(position: int, field: string): string
  {
    "top_" + IntToString(position) + "_" + field
  }

  /** Decimal spellings never contain the separator. */
  lemma NoSeparatorInNumber(n: int)
    ensures '_' !in IntToString(n)
  {
    var s := IntToString(n);
    if n < 0 {
      assert forall i | 1 <= i < |s| :: s[i] == NatToDigits(-n)[i - 1];
    }
  }

  /** `top_<p>_<field>` splits into `top`, `p` and the field, and `p` parses back to the position. */
  lemma TopIdentifierParts(position: int, field: string, tail: string)
    requires INT_MIN <= position <= INT_MAX
    requires field != "" && '_' !in field
    requires tail == "" || tail[0] == '_'
    ensures var parts := JavaSplit(TopIdentifier(position, field) + tail, '_');
      |parts| >= 3 && ParseInt(parts[1]) == Some(position) && parts[2] == field
  {
    var p := IntToString(position);
    NoSeparatorInNumber(position);
    SplitThree("top", p, field, tail, '_');
    assert TopIdentifier(position, field) + tail == "top" + ['_'] + p + ['_'] + field + tail;
    IntToStringRoundTrip(position);
  }

  /**
   * A valid 1-based position selects element `position - 1`: its name for
   * `name`, its wins for `wins`, and `"0"` for any other field.  Whatever
   * follows the field after another `_` is ignored.
   */
  lemma TopSelectsPosition(topPlayers: seq<SortedPlayer>, position: int, field: string, tail: string)
    requires 1 <= position <= |topPlayers| && position <= INT_MAX
    requires field != "" && '_' !in field
    requires tail == "" || tail[0] == '_'
    ensures var r := HandleTopPlaceholder(TopIdentifier(position, field) + tail, Some(topPlayers));
      && (field == "name" ==> r == topPlayers[position - 1].name)
      && (field == "wins" ==> r == IntToString(topPlayers[position - 1].totalWins))
      && (field != "name" && field != "wins" ==> r == "0")
  {
    TopIdentifierParts(position, field, tail);
    TopAtPosition(TopIdentifier(position, field) + tail, topPlayers, position);
  }

  /** With the position parsed and in range, the third part picks the field. */
  lemma TopAtPosition(identifier: string, topPlayers: seq<SortedPlayer>, position: int)
    requires var parts := JavaSplit(identifier, '_');
      |parts| >= 3 && ParseInt(parts[1]) == Some(position)
    requires 1 <= position <= |topPlayers|
    ensures var field := JavaSplit(identifier, '_')[2];
      var player := topPlayers[position - 1];
      HandleTopPlaceholder(identifier, Some(topPlayers))
        == if field == "name" then player.name else if field == "wins" then IntToString(player.totalWins) else "0"
  {
  }

  /**
   * A position outside `1..|topPlayers|` renders `"Ninguno"` for the name and
   * `"0"` for anything else.
   */
  lemma TopOutOfRange(topPlayers: seq<SortedPlayer>, position: int, field: string, tail: string)
    requires (position <= 0 || position > |topPlayers|) && INT_MIN <= position <= INT_MAX
    requires field != "" && '_' !in field
    requires tail == "" || tail[0] == '_'
    ensures HandleTopPlaceholder(TopIdentifier(position, field) + tail, Some(topPlayers))
         == if field == "name" then "Ninguno" else "0"
  {
    TopIdentifierParts(position, field, tail);
  }

  /** A failed leaderboard fetch renders `"0"` whatever was asked. */
  lemma TopFetchFailed(identifier: string)
    ensures HandleTopPlaceholder(identifier, None) == "0"
  {
  }

  /** A position `Integer.parseInt` rejects renders `"0"`, before any fetch. */
  lemma TopBadPosition(identifier: string, fetched: Option<seq<SortedPlayer>>)
    requires |JavaSplit(identifier, '_')| >= 3
    requires ParseInt(JavaSplit(identifier, '_')[1]).None?
    ensures HandleTopPlaceholder(identifier, fetched) == "0"
  {
  }

  /**
   * `top_<p>_` has only two parts once the trailing empty one is dropped,
   * so it renders `"0"` even when `p` is a valid position.
   */
  lemma TopTrailingSeparator(position: string, fetched: Option<seq<SortedPlayer>>)
    requires position != "" && '_' !in position
    ensures JavaSplit("top_" + position + "_", '_') == ["top", position]
    ensures HandleTopPlaceholder("top_" + position + "_", fetched) == "0"
  {
    assert "top_" + position + "_" == "top" + ['_'] + position + ['_'];
    SplitTrailingSep("top", position, '_');
  }
}
