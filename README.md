# zKothData: a verified model of its KotH statistics core

zKothData is a Minecraft server plugin. It records King-of-the-Hill (KotH)
wins in MySQL, keeps a Guava cache in front of the database, and serves the
numbers to PlaceholderAPI. This project models four parts of it:

- `KothDataCache`: four caches with write-based expiry;
- `PlayerStats`: one player's per-KotH counts and their total;
- the `DatabaseManager` coordinator, run against a model of the three MySQL
  tables;
- the placeholder parsing of `KothStatsExpansion`.

Modules, one concept each:

| file | module | what it holds |
|---|---|---|
| `common.dfy` | `Common` | `Option`, `Uuid`, `SortedPlayer`, `KothWin` (the `KothWinDTO`), `GetOrZero`, sums over maps |
| `koth_data_cache.dfy` | `DataCache` | `Entry` (value and write time), the four lifetimes, `Live`/`Lookup` (Guava's `getIfPresent`), class `KothDataCache` |
| `player_stats.dfy` | `Models` | class `PlayerStats` with the invariant "total = sum of the counts" |
| `store_schema.dfy` | `Schema` | the tables as values, the meaning of each SQL statement, table consistency |
| `leaderboard.dfy` | `Leaderboard` | `GET_TOP_PLAYERS_QUERY`: ranking by summed wins, the `LIMIT` cut, the spec `IsTopN` |
| `stats_store.dfy` | `Store` | class `StatsStore`: the MySQL server, one method per statement or transaction |
| `database_manager.dfy` | `Database` | class `DatabaseManager`, with its coherence invariant between the cache and the tables |
| `java_text.dfy` | `JavaText` | `String.valueOf(int)`, `Integer.parseInt`, `String.split` |
| `koth_stats_expansion.dfy` | `Hook` | `onRequest` and `handleTopPlaceholder` |

How the model is set up:

- **Time.** The clock is an explicit `now` in milliseconds. A cache entry is
  live while `now - writtenAt < ttl`. The lifetimes are 1 hour for names,
  5 minutes for stats, 2 minutes for leaderboards and 5 minutes for per-KotH
  totals.
- **The manager's invariant.** `DatabaseManager` has a ghost `clock`, and
  every operation requires `clock <= now`. Guava's ticker is monotonic, and
  this records that. The invariant `DatabaseManager.Valid` has three parts:
  - the tables are consistent. Both foreign keys hold, and every
    `koth_stats.wins` equals the number of `koth_wins` rows for its key;
  - every live cached stats map equals what `GET_PLAYER_STATS` returns now;
  - every live cached leaderboard is what the leaderboard query returns now,
    by score.

  Every operation is proved to keep this invariant.
- **Faults are parameters.**
  - `TxFault` says how the win transaction ends: connection failure,
    statement failure (including the foreign-key violation for an unknown
    player) or commit failure.
  - `fault: bool` is a failing `INSERT_PLAYER`.
  - `rejected` is the set of batch statements the server refuses. MySQL
    Connector/J goes on after one of them.
  - `failAt` is the position of the `rs.next()` call that throws during a
    read.
- **Concurrency.** Each `CompletableFuture` is modelled as a sequential run
  of its body.

Points where the model commits to one reading of the code:

- **Join kind.** An outer join would also list players with zero wins.
  `GET_TOP_PLAYERS_QUERY` is an inner join (`Schema.Ranked`), so only
  players with at least one `koth_stats` row appear.
- **Ties.** The query has no tie-break, so the model leaves the order of
  equal totals open: `IsTopN` only requires a non-increasing order.
- **The cache's revision.** `DatabaseManager` calls three cache members that
  the `KothDataCache` in this revision of the plugin does not have.
  - `incrementKothWin` is modelled as `incrementPlayerWins`.
  - `needsTopPlayersRefresh(refreshSeconds)` is `Database.NeedsTopRefresh`.
    It is true when no refresh happened yet, or when at least
    `refreshSeconds` seconds have passed since the last one (field
    `lastTopRefresh`).
  - `updateTopPlayers(results)` stores the list under the requested limit and
    records the refresh time.
  - When no list is cached at all, the manager queries the database.
    `getTopPlayers` would return `null` there, so this is read as an empty
    list.

I/O that the model turns into parameters:

- the clock;
- the configuration values `refreshSeconds` and `limit`;
- the rows stored in the database;
- the two cache reads the placeholder code makes (`totalWins` and
  `kothWins`);
- the leaderboard fetch (`fetched`: the list, or `None` when `get()` throws).

## Model

| member | source | states |
|---|---|---|
| `DataCache.Lookup` | src/main/java/com/stephanofer/zKothData/KothDataCache.java:27-51 | `getIfPresent` returns the value exactly when the entry is younger than its cache's lifetime |
| `DataCache.PutThenLookup` | src/main/java/com/stephanofer/zKothData/KothDataCache.java:59-61 | a value `put` at `t` reads back until `t + ttl`, and other keys are unaffected |
| `DataCache.BumpStatsLive` | src/main/java/com/stephanofer/zKothData/KothDataCache.java:103-107 | a live stats map gains exactly one win for the KotH, with every other count and every other player unchanged |
| `DataCache.BumpStatsEntry` | src/main/java/com/stephanofer/zKothData/KothDataCache.java:103-107 | after the increment, a live entry holds the bumped map for the winner and the old map for anyone else |
| `DataCache.BumpStatsMissing` | src/main/java/com/stephanofer/zKothData/KothDataCache.java:104-105 | a player with no live stats map gets none: the increment creates no entry |
| `DataCache.BumpTotalCases` | src/main/java/com/stephanofer/zKothData/KothDataCache.java:113-118 | a live KotH total goes up by one; an absent or expired one stays absent; other totals are untouched |
| `DataCache.BumpStats` | src/main/java/com/stephanofer/zKothData/KothDataCache.java:103-107 | the stats half of `incrementPlayerWins`: a live map gets `getOrDefault(k, 0) + 1` for the KotH in place, so its write time stays; an absent or expired one is left as it is (its properties: `BumpStatsLive`, `BumpStatsEntry`, `BumpStatsMissing`) |
| `DataCache.BumpTotal` | src/main/java/com/stephanofer/zKothData/KothDataCache.java:113-118 | the totals half of `incrementPlayerWins`: a live total is re-put as total + 1 at the current time, anything else is invalidated (its properties: `BumpTotalCases`) |
| `DataCache.KothDataCache.constructor` | src/main/java/com/stephanofer/zKothData/KothDataCache.java:27-51 | all four caches start empty |
| `DataCache.KothDataCache.UpdatePlayerName` | src/main/java/com/stephanofer/zKothData/KothDataCache.java:59-61 | the name is stored with the current time; the other caches are unchanged |
| `DataCache.KothDataCache.GetPlayerName` | src/main/java/com/stephanofer/zKothData/KothDataCache.java:69-71 | returns the cached name exactly when it is younger than one hour |
| `DataCache.KothDataCache.SetPlayerStats` | src/main/java/com/stephanofer/zKothData/KothDataCache.java:79-81 | stores a copy of the map with the current time; the other caches are unchanged |
| `DataCache.KothDataCache.GetPlayerStats` | src/main/java/com/stephanofer/zKothData/KothDataCache.java:89-95 | returns the cached map exactly when it is younger than five minutes, otherwise nothing |
| `DataCache.KothDataCache.IncrementPlayerWins` | src/main/java/com/stephanofer/zKothData/KothDataCache.java:103-119 | bumps a live stats map in place, keeping its write time; drops every leaderboard; bumps or invalidates the KotH total; names are unchanged |
| `DataCache.KothDataCache.SetTopPlayers` | src/main/java/com/stephanofer/zKothData/KothDataCache.java:127-134 | stores an equal copy of the list under `limit`; the other caches are unchanged |
| `DataCache.KothDataCache.GetTopPlayers` | src/main/java/com/stephanofer/zKothData/KothDataCache.java:142-153 | returns an equal copy of the list exactly when it is younger than two minutes |
| `DataCache.KothDataCache.InvalidateAll` | src/main/java/com/stephanofer/zKothData/KothDataCache.java:159-164 | all four caches are empty afterwards |
| `DataCache.CopyRows` | src/main/java/com/stephanofer/zKothData/KothDataCache.java:128-133 | the defensive-copy loop yields a list equal to its input |
| `Models.PlayerStats.constructor` | src/main/java/com/stephanofer/zKothData/models/PlayerStats.java:14-19 | no wins and total 0; the invariant holds |
| `Models.PlayerStats.GetPlayerUuid` | src/main/java/com/stephanofer/zKothData/models/PlayerStats.java:21-23 | returns the player's UUID |
| `Models.PlayerStats.GetPlayerName` | src/main/java/com/stephanofer/zKothData/models/PlayerStats.java:25-27 | returns the player's name |
| `Models.PlayerStats.AddKothWin` | src/main/java/com/stephanofer/zKothData/models/PlayerStats.java:29-33 | one more win for the KotH and one more in the total; keeps "total = sum of counts, each count at least 1" |
| `Models.PlayerStats.GetWinsForKoth` | src/main/java/com/stephanofer/zKothData/models/PlayerStats.java:35-37 | 0 for a KotH never won, otherwise its count, which is at least 1 |
| `Models.PlayerStats.GetAllKothWins` | src/main/java/com/stephanofer/zKothData/models/PlayerStats.java:39-41 | a copy of the per-KotH counts |
| `Models.PlayerStats.GetTotalWins` | src/main/java/com/stephanofer/zKothData/models/PlayerStats.java:43-45 | the total is the sum over all KotHs, and it is not negative |
| `Models.NonNegativeSum` | src/main/java/com/stephanofer/zKothData/models/PlayerStats.java:29-33 | counts that are each at least 1 sum to at least their number |
| `JavaText.NatToDigits` | src/main/java/com/stephanofer/zKothData/hook/KothStatsExpansion.java:122 | the decimal spelling is non-empty, all digits, and has no leading zero except for 0 itself |
| `JavaText.IntToString` | src/main/java/com/stephanofer/zKothData/hook/KothStatsExpansion.java:122 | `String.valueOf(int)` starts with `-` exactly for negatives and with a digit otherwise |
| `JavaText.ParseInt` | src/main/java/com/stephanofer/zKothData/hook/KothStatsExpansion.java:106 | `Integer.parseInt` only succeeds on a sign-or-digit start, within the 32-bit range; anything else is `None` (`NumberFormatException`) |
| `JavaText.DigitsRoundTrip` | src/main/java/com/stephanofer/zKothData/hook/KothStatsExpansion.java:106 | reading back the digits of `n` gives `n` |
| `JavaText.IntToStringRoundTrip` | src/main/java/com/stephanofer/zKothData/hook/KothStatsExpansion.java:106 | `Integer.parseInt(String.valueOf(n)) == n` for every 32-bit `n` |
| `JavaText.SplitAll` | src/main/java/com/stephanofer/zKothData/hook/KothStatsExpansion.java:100 | splitting yields at least one piece, and no piece contains the separator |
| `JavaText.SplitJoin` | src/main/java/com/stephanofer/zKothData/hook/KothStatsExpansion.java:100 | splitting loses nothing: joining the pieces with the separator gives the string back |
| `JavaText.SplitAtFirst` | src/main/java/com/stephanofer/zKothData/hook/KothStatsExpansion.java:100 | the text before the first separator is the first piece |
| `JavaText.SplitNone` | src/main/java/com/stephanofer/zKothData/hook/KothStatsExpansion.java:100 | a string without the separator is one piece |
| `JavaText.DropTrailingEmpty` | src/main/java/com/stephanofer/zKothData/hook/KothStatsExpansion.java:100 | `split` drops exactly the trailing empty pieces: the result is a prefix, ends non-empty, and everything cut was empty |
| `JavaText.JavaSplit` | src/main/java/com/stephanofer/zKothData/hook/KothStatsExpansion.java:100 | `identifier.split("_")`: a string without the separator is its own single piece; otherwise the pieces between separators, minus the empty ones at the end (its properties: `SplitThree`, `SplitTrailingSep`, `SplitNone`) |
| `JavaText.SplitThree` | src/main/java/com/stephanofer/zKothData/hook/KothStatsExpansion.java:100-107 | `p0_p1_p2...` splits into `p0`, `p1`, `p2` first when none of them contains `_` |
| `JavaText.SplitTrailingSep` | src/main/java/com/stephanofer/zKothData/hook/KothStatsExpansion.java:100-103 | `a_b_` splits into exactly `a` and `b` |
| `Hook.HandleTopPlaceholder` | src/main/java/com/stephanofer/zKothData/hook/KothStatsExpansion.java:99-132 | the answer is `"0"`, `"Ninguno"`, or the name or the rendered wins of some fetched row |
| `Hook.OnRequest` | src/main/java/com/stephanofer/zKothData/hook/KothStatsExpansion.java:51-71 | `null` exactly for an identifier that is none of `total_wins`, `wins_*`, `top_*`; `""` for no player |
| `Hook.TotalWinsReadsBack` | src/main/java/com/stephanofer/zKothData/hook/KothStatsExpansion.java:57-59 | `total_wins` renders the total so that `parseInt` reads it back |
| `Hook.WinsNamesSuffix` | src/main/java/com/stephanofer/zKothData/hook/KothStatsExpansion.java:61-64 | `wins_<k>` asks for exactly KotH `k`, for every name `k` |
| `Hook.TopGoesToHandler` | src/main/java/com/stephanofer/zKothData/hook/KothStatsExpansion.java:66-68 | every `top_*` identifier goes to the leaderboard handler |
| `Hook.NoSeparatorInNumber` | src/main/java/com/stephanofer/zKothData/hook/KothStatsExpansion.java:100 | a rendered position never contains `_` |
| `Hook.TopIdentifierParts` | src/main/java/com/stephanofer/zKothData/hook/KothStatsExpansion.java:100-107 | `top_<p>_<field>` yields position `p` and that field |
| `Hook.TopSelectsPosition` | src/main/java/com/stephanofer/zKothData/hook/KothStatsExpansion.java:112-125 | a valid 1-based position shows that row's name for `name`, its wins for `wins`, `"0"` for any other field; extra `_...` is ignored |
| `Hook.TopAtPosition` | src/main/java/com/stephanofer/zKothData/hook/KothStatsExpansion.java:116-125 | with a parsed position in range, the third part alone picks what is shown |
| `Hook.TopOutOfRange` | src/main/java/com/stephanofer/zKothData/hook/KothStatsExpansion.java:112-114 | a position outside `1..size` shows `"Ninguno"` for `name` and `"0"` otherwise |
| `Hook.TopFetchFailed` | src/main/java/com/stephanofer/zKothData/hook/KothStatsExpansion.java:128-131 | a failed leaderboard fetch shows `"0"` |
| `Hook.TopBadPosition` | src/main/java/com/stephanofer/zKothData/hook/KothStatsExpansion.java:126-127 | a position `parseInt` rejects shows `"0"` |
| `Hook.TopTrailingSeparator` | src/main/java/com/stephanofer/zKothData/hook/KothStatsExpansion.java:100-103 | `top_<p>_` has two parts after `split`, so it shows `"0"` even for a valid position |
| `Schema.Upsert` | src/main/java/com/stephanofer/zKothData/database/DatabaseManager.java:52-54 | `INSERT ... ON DUPLICATE KEY UPDATE name`: the UUID is present with the new name, and every other row is unchanged |
| `Schema.UpsertIdempotent` | src/main/java/com/stephanofer/zKothData/database/DatabaseManager.java:52-54 | running the same upsert twice equals running it once, and a later name wins |
| `Schema.UpsertAllIsUnion` | src/main/java/com/stephanofer/zKothData/database/DatabaseManager.java:392-409 | a batch of upserts overwrites the table with the batch's entries, the last one winning |
| `Schema.UpsertAll` | src/main/java/com/stephanofer/zKothData/database/DatabaseManager.java:395-407 | the `executeBatch` of `INSERT_PLAYER` statements: each statement's upsert applied in batch order (its closed form: `UpsertAllIsUnion`) |
| `Schema.BatchMap` | src/main/java/com/stephanofer/zKothData/database/DatabaseManager.java:395-400 | the batch as a map from UUID to name, a later statement for a UUID overriding an earlier one (tied to the input map by `BuildBatch`) |
| `Schema.BumpWins` | src/main/java/com/stephanofer/zKothData/database/DatabaseManager.java:59-61 | `UPDATE_STATS` adds the key with 1 if new, otherwise adds one; other rows are unchanged |
| `Schema.WinTransaction` | src/main/java/com/stephanofer/zKothData/database/MySQLConnector.java:83-121 | the win transaction commits exactly when the player exists and nothing fails |
| `Schema.Consistent` | src/main/java/com/stephanofer/zKothData/database/DatabaseManager.java:35-51 | the tables' invariant: both `FOREIGN KEY (player_uuid)` constraints hold, and each `koth_stats.wins` is at least 1 and equals the number of `koth_wins` rows for its (player, KotH) key, with no row for a key never logged (kept by `WinPreservesConsistency` and the upsert lemmas) |
| `Schema.WinPreservesConsistency` | src/main/java/com/stephanofer/zKothData/database/DatabaseManager.java:236-252 | a committed win keeps the foreign keys and "stats count the log" |
| `Schema.UpsertPreservesConsistency` | src/main/java/com/stephanofer/zKothData/database/DatabaseManager.java:164-173 | an upsert keeps the tables consistent |
| `Schema.UpsertAllPreservesConsistency` | src/main/java/com/stephanofer/zKothData/database/DatabaseManager.java:392-409 | a batch of upserts keeps the tables consistent |
| `Schema.LoggedKoths` | src/main/java/com/stephanofer/zKothData/database/DatabaseManager.java:65 | `SELECT DISTINCT koth_name FROM koth_wins`: the set of KotH names in the win log (its growth: `LoggedKothsAppend`) |
| `Schema.PlayerStatsResult` | src/main/java/com/stephanofer/zKothData/database/DatabaseManager.java:63-68 | `GET_PLAYER_STATS` as a map: the player's `koth_stats` rows whose KotH is in the distinct set, KotH to wins (on consistent tables, the player's win counts from the log: `PlayerStatsMatchLog`) |
| `Schema.PlayerStatsMatchLog` | src/main/java/com/stephanofer/zKothData/database/DatabaseManager.java:63-68 | on consistent tables, `GET_PLAYER_STATS` holds a KotH exactly when the player won it, with the logged number of wins |
| `Schema.NoHistoryNoStats` | src/main/java/com/stephanofer/zKothData/database/DatabaseManager.java:63-68 | a player with no win gets an empty map |
| `Schema.StatsKeyLogged` | src/main/java/com/stephanofer/zKothData/database/DatabaseManager.java:56-61 | on consistent tables every `koth_stats` row's KotH appears in `koth_wins` |
| `Schema.LoggedKothsAppend` | src/main/java/com/stephanofer/zKothData/database/DatabaseManager.java:65 | logging a win adds exactly its KotH to `SELECT DISTINCT koth_name` |
| `Schema.WinUpdatesPlayerStats` | src/main/java/com/stephanofer/zKothData/database/DatabaseManager.java:56-68 | a committed win adds one win for that KotH to the winner's `GET_PLAYER_STATS` result and changes nobody else's |
| `Schema.RowsToMap` | src/main/java/com/stephanofer/zKothData/database/DatabaseManager.java:294-300 | the `while (rs.next())` loop: each row is `put` into the map in order, a later row for a KotH overriding an earlier one (its properties: `RowsToMapAgrees`, `Store.RowsOfResult`) |
| `Schema.RowsToMapAgrees` | src/main/java/com/stephanofer/zKothData/database/DatabaseManager.java:295-300 | rows that agree with a map build a part of that map |
| `Schema.Ranked` | src/main/java/com/stephanofer/zKothData/database/DatabaseManager.java:69-74 | the players the inner `JOIN koth_stats` keeps: those with a `koth_players` row and at least one `koth_stats` row (under the foreign keys: `RankedUnderForeignKeys`) |
| `Schema.TotalOf` | src/main/java/com/stephanofer/zKothData/database/DatabaseManager.java:70 | `SUM(s.wins)` of one player's `koth_stats` rows after `GROUP BY` |
| `Schema.TopCount` | src/main/java/com/stephanofer/zKothData/database/DatabaseManager.java:69-75 | the number of rows `LIMIT ?` lets through: the number of ranked players capped at the limit, and none for a negative limit |
| `Schema.RankedUnderForeignKeys` | src/main/java/com/stephanofer/zKothData/database/DatabaseManager.java:69-75 | with the foreign key in place, the join keeps every player who has a stats row |
| `Leaderboard.IsTopN` | src/main/java/com/stephanofer/zKothData/database/DatabaseManager.java:69-75 | the leaderboard query's result: rows of ranked players with their names and `SUM(s.wins)`, one per player, in non-increasing order, as many as `LIMIT` allows, and no player left out with more wins than a kept row; ties in any order (met by `PrefixIsTopN` and `Store.StatsStore.QueryTopPlayers`) |
| `Leaderboard.IsTopNByScore` | src/main/java/com/stephanofer/zKothData/database/DatabaseManager.java:69-75 | `IsTopN` with the names left out: what a cached leaderboard keeps after a later rename (`TopNIsTopNByScore`, `ByScoreSameRanked`) |
| `Leaderboard.TopNIsTopNByScore` | src/main/java/com/stephanofer/zKothData/database/DatabaseManager.java:69-75 | a full leaderboard result is, in particular, right by score |
| `Leaderboard.ByScoreSameRanked` | src/main/java/com/stephanofer/zKothData/database/DatabaseManager.java:69-75 | a ranking by score depends only on the set of ranked players, not on their names |
| `Leaderboard.InsertDescProperties` | src/main/java/com/stephanofer/zKothData/database/DatabaseManager.java:74 | ordered insertion adds exactly one row, keeps the order non-increasing, and keeps players distinct |
| `Leaderboard.InsertWellRanked` | src/main/java/com/stephanofer/zKothData/database/DatabaseManager.java:74 | inserting a correct row for a new player ranks one player more |
| `Leaderboard.SumRows` | src/main/java/com/stephanofer/zKothData/database/DatabaseManager.java:70 | `SUM(s.wins)` taken row by row is the sum of the player's rows |
| `Leaderboard.PlayerRow` | src/main/java/com/stephanofer/zKothData/database/DatabaseManager.java:70-73 | a ranked player's row carries their joined name and their summed wins |
| `Leaderboard.RankOne` | src/main/java/com/stephanofer/zKothData/database/DatabaseManager.java:73-74 | adding one player's row to a partial ranking ranks that player too |
| `Leaderboard.RankPlayers` | src/main/java/com/stephanofer/zKothData/database/DatabaseManager.java:69-74 | every joined player appears once, with correct name and sum, best first |
| `Leaderboard.PrefixWellRanked` | src/main/java/com/stephanofer/zKothData/database/DatabaseManager.java:75 | any prefix of a correct ranking is a correct ranking |
| `Leaderboard.LeftOutNotBetter` | src/main/java/com/stephanofer/zKothData/database/DatabaseManager.java:74-75 | a player cut by `LIMIT` has no more wins than any row kept |
| `Leaderboard.PrefixIsTopN` | src/main/java/com/stephanofer/zKothData/database/DatabaseManager.java:69-75 | cutting the ranking at `LIMIT` gives the top-N result |
| `Store.Accepted` | src/main/java/com/stephanofer/zKothData/database/DatabaseManager.java:407 | the statements the server applies are exactly the batch entries outside `rejected` |
| `Store.Kept` | src/main/java/com/stephanofer/zKothData/database/DatabaseManager.java:407 | keeps exactly the entries of players outside `rejected`, with their values |
| `Store.BatchMapAccepted` | src/main/java/com/stephanofer/zKothData/database/DatabaseManager.java:395-407 | dropping the refused statements drops exactly those players from the batch's map |
| `Store.StatsStore.constructor` | src/main/java/com/stephanofer/zKothData/database/DatabaseManager.java:105-118 | freshly created tables are empty and consistent |
| `Store.StatsStore.UpsertPlayer` | src/main/java/com/stephanofer/zKothData/database/DatabaseManager.java:164-173 | succeeds exactly without a fault, and then upserts the player; nothing else changes |
| `Store.StatsStore.ExecuteBatch` | src/main/java/com/stephanofer/zKothData/database/DatabaseManager.java:407 | applies the accepted statements in batch order and keeps the tables consistent |
| `Store.StatsStore.RecordWin` | src/main/java/com/stephanofer/zKothData/database/DatabaseManager.java:236-252 | commits both writes exactly when the player exists and nothing fails, otherwise changes nothing |
| `Store.StatsStore.QueryPlayerStats` | src/main/java/com/stephanofer/zKothData/database/DatabaseManager.java:289-292 | the rows, put into a map, are exactly the player's `GET_PLAYER_STATS` result, one row per KotH |
| `Store.StatsStore.QueryTopPlayers` | src/main/java/com/stephanofer/zKothData/database/DatabaseManager.java:339-342 | with a non-negative `LIMIT`, returns the top-N result; a negative one is an error with no rows |
| `Store.PrefixAgrees` | src/main/java/com/stephanofer/zKothData/database/DatabaseManager.java:295-300 | whatever prefix of the rows is read before a failure, the map built is a part of the result |
| `Store.RowsOfResult` | src/main/java/com/stephanofer/zKothData/database/DatabaseManager.java:63-68 | the server sends each entry of the result once |
| `Database.NeedsTopRefresh` | src/main/java/com/stephanofer/zKothData/database/DatabaseManager.java:325 | `needsTopPlayersRefresh(refreshSeconds)`: true when no refresh happened yet, or at least `refreshSeconds` seconds ago |
| `Database.CachedTopUsable` | src/main/java/com/stephanofer/zKothData/database/DatabaseManager.java:325-330 | `getTopPlayers` answers from the cache exactly when no refresh is due and the list cached for the limit is live and not empty |
| `Database.StatsCoherent` | src/main/java/com/stephanofer/zKothData/database/DatabaseManager.java:278-283 | the cache half of the manager's invariant: every live cached stats map, which `getPlayerStats` returns without a query, equals the player's `GET_PLAYER_STATS` result on the current tables (kept by `WinKeepsStatsCoherent`, `CachingResultKeepsCoherent`, `CoherentLater`) |
| `Database.TopCoherent` | src/main/java/com/stephanofer/zKothData/database/DatabaseManager.java:325-330 | the leaderboard half of the manager's invariant: every live cached list, which `getTopPlayers` may return without a query, is `IsTopNByScore` on the current tables for its limit (kept by `UpsertKeepsTopCoherent`, `CoherentLater`) |
| `Database.CoherentLater` | src/main/java/com/stephanofer/zKothData/KothDataCache.java:27-51 | entries only expire as time goes on, so a coherent cache stays coherent |
| `Database.CachingResultKeepsCoherent` | src/main/java/com/stephanofer/zKothData/database/DatabaseManager.java:303 | caching a fresh `GET_PLAYER_STATS` result keeps the cached stats right |
| `Database.WinKeepsStatsCoherent` | src/main/java/com/stephanofer/zKothData/database/DatabaseManager.java:256-260 | bumping the cache in place after a committed win keeps every live cached stats map equal to the tables |
| `Database.UpsertKeepsTopCoherent` | src/main/java/com/stephanofer/zKothData/database/DatabaseManager.java:156-178 | adding or renaming players keeps cached leaderboards right by score |
| `Database.ReportedSuccessAsWritten` | src/main/java/com/stephanofer/zKothData/database/DatabaseManager.java:251-255 | as written, `registerWinAsync` reports success when the player exists and either nothing fails or only `commit()` fails |
| `Database.ReportedSuccessDiffersOnCommitFault` | src/main/java/com/stephanofer/zKothData/database/DatabaseManager.java:251-255 | the reported flag differs from the commit exactly when `commit()` fails for an existing player |
| `Database.CommitFailureReportedAsSuccess` | src/main/java/com/stephanofer/zKothData/database/MySQLConnector.java:92-106 | a win whose commit fails is still reported as stored, although nothing was stored |
| `Database.CommitFailureStalesCachedStats` | src/main/java/com/stephanofer/zKothData/database/DatabaseManager.java:251-260 | taking the as-written flag after a failed commit bumps a live cached stats map although the tables did not change, so that map no longer matches the tables |
| `Database.AddToBatch` | src/main/java/com/stephanofer/zKothData/database/DatabaseManager.java:395-400 | adding one entry to the batch keeps "batch plus the rest is the input" |
| `Database.BatchApplies` | src/main/java/com/stephanofer/zKothData/database/DatabaseManager.java:392-409 | running the batch built from a map adds exactly that map's accepted entries |
| `Database.BuildBatch` | src/main/java/com/stephanofer/zKothData/database/DatabaseManager.java:395-406 | the batch holds one statement per map entry: as a map, it is the input |
| `Database.ReadStatRows` | src/main/java/com/stephanofer/zKothData/database/DatabaseManager.java:294-300 | reads exactly the rows before the failing `rs.next()` (all of them when none fails or the last call fails); a complete read builds the rows' map |
| `Database.ReadTopRows` | src/main/java/com/stephanofer/zKothData/database/DatabaseManager.java:344-355 | reads exactly the rows before the failing `rs.next()`: all of them exactly when no call before the last one fails, and the read completes exactly when none fails |
| `Database.DatabaseManager.constructor` | src/main/java/com/stephanofer/zKothData/database/DatabaseManager.java:77-103 | starts with an empty cache over consistent tables, never refreshed |
| `Database.DatabaseManager.RegisterWinAsync` | src/main/java/com/stephanofer/zKothData/database/DatabaseManager.java:227-267 | reports success exactly when the win was committed; then the cache is bumped, every leaderboard dropped and one refresh requested; otherwise the cache is untouched |
| `Database.DatabaseManager.RegisterPlayerAsync` | src/main/java/com/stephanofer/zKothData/database/DatabaseManager.java:156-178 | reports whether the upsert ran, and upserts the player when it did |
| `Database.DatabaseManager.BulkInsertPlayers` | src/main/java/com/stephanofer/zKothData/database/DatabaseManager.java:385-413 | an empty map touches nothing; otherwise the table gains the accepted entries |
| `Database.DatabaseManager.GetPlayerStats` | src/main/java/com/stephanofer/zKothData/database/DatabaseManager.java:272-311 | a live cached map is returned with no query and equals the tables; a miss queries once and returns the result, caching it when the read completes; a failed read returns a part of it and caches nothing |
| `Database.DatabaseManager.GetTopPlayers` | src/main/java/com/stephanofer/zKothData/database/DatabaseManager.java:316-367 | a usable cached list is returned with no query and is right by score; otherwise one query, whose complete result is the top N and is cached with the refresh time; a failed or negative-limit read caches nothing |

## Left out

- Concurrency: every `CompletableFuture` and callback runs to completion in sequence. Interleavings of asynchronous tasks are not modelled.
- Guava's `maximumSize` eviction (1000, 200, 10 and 50 entries): eviction by size is not modelled. Entries go away only by expiry or invalidation.
- Logging, `recordQueryTime`, `logQueryPerformance` and all timing statistics: they have no effect on data.
- The `last_seen` and `win_time` timestamps and the `koth_wins.id` column: nothing in the program reads them.
- `VARCHAR` widths (16, 36 and 64 characters): strings are unbounded here.
- Collation: KotH names are compared as exact strings, so the model assumes a binary collation. The tables (DatabaseManager.java:28-51) declare no `COLLATE`, and MySQL's default collation ignores case and accents. Under it, "Castle" and "castle" share one `koth_stats` key, `UPDATE_STATS` bumps that one row, and `GET_PLAYER_STATS` returns one spelling. The cache keys on the exact `String`, so it keeps two entries where the database has one row. On such a server `Database.WinKeepsStatsCoherent` and `DatabaseManager.Valid` do not describe the program.
- Integer overflow of `wins`, `SUM(wins)` and the cached counters: they are unbounded integers. Only `parseInt` and `String.valueOf` use the 32-bit range.
- `Integer.parseInt` accepts only ASCII digits here. Java also accepts other Unicode decimal digits.
- A failing `rollback()`: the model assumes `rollback()` always succeeds, so a failed win transaction stores nothing. In the connector (MySQLConnector.java:98-110) a failed `rollback()` is only logged, and the `finally` then calls `setAutoCommit(originalAutoCommit)`. Under JDBC, turning auto-commit back on commits the open transaction. So when `UPDATE_STATS` fails and the rollback fails too, the `INSERT_WIN` row can be committed without the stats bump. That partial commit breaks `Schema.CountsMatchLog`, and it is not modelled.
- The `ORDER BY s.wins DESC` of `GET_PLAYER_STATS`: the rows go into a `HashMap`, so their order is invisible. The model's server sends them in no particular order.
- `UUID.fromString` on a malformed `uuid` column value: UUIDs are abstract values here.
- A connection or prepare failure in `getPlayerStats` and `getTopPlayers` is modelled as `failAt == Some(0)`. In both cases nothing is read and nothing is cached.
- `initializeTables`: the manager's constructor receives a store whose tables already exist. Its connection settings, configuration reads and the debug scheduler are left out.
- `scheduleTopPlayersRefresh`: modelled only as one more pending refresh in `refreshRequests`. The delayed `getTopPlayers(limit)` call it schedules is not run.
- `close` and the connector's bookkeeping (`openConnections`, the lock, `isFinished`): no data effect.
- `getKothDataCache`: the cache is the manager's public `cache` field.
- `Database.NeedsTopRefresh`: the cache member it stands for is not in the `KothDataCache` in this revision of the plugin. Its meaning ("never refreshed, or at least `refreshSeconds` seconds ago") is an assumption.
- An absent cached leaderboard: the `getTopPlayers` of the `KothDataCache` in this revision of the plugin returns `null`, and `isEmpty()` on it would fail the future. The model queries the database instead, as for an empty list.
- The listeners (`KothWinEvent`, `onKothWin`, `PlayerJoin`) and the plugin bootstrap (`ZKothData`): they are callers, not part of this model.
- `getTotalWins` and `getKothWins` of the placeholder code call cache members that the `KothDataCache` in this revision of the plugin does not define. They are the function parameters `totalWins` and `kothWins`.
- `Database.DatabaseManager.GetTopPlayers`: the cached lists are only known to be right by score. Their names may be stale, because `registerPlayerAsync` does not invalidate the cache after a rename.

## Findings

| source | as written | input that shows it | evidently intended | confidence | as-written member | corrected member |
|---|---|---|---|---|---|---|
| src/main/java/com/stephanofer/zKothData/database/DatabaseManager.java:251 | `success.set(true)` is the callback's last line, and `connect` commits only after the callback returns (MySQLConnector.java:93-96). A failing `commit()` is rolled back and logged, but `success` is already true, so `registerWinAsync` reports success and bumps the cache. | a known player with `commit()` throwing (`TxFault.CommitFault`) | report success, and touch the cache, only when the transaction committed | not executed | `Database.ReportedSuccessAsWritten`, `Database.CommitFailureReportedAsSuccess`, `Database.CommitFailureStalesCachedStats` | `Database.DatabaseManager.RegisterWinAsync` |
