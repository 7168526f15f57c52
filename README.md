# Music-streaming business reports, modelled in Dafny

This project models the five analytical reports of a music-streaming
database (`database/queries.js`). Each report is a MongoDB aggregation
pipeline over four collections: `streams` (plays), `users`, `songs` and
`artists`. The reports are:

1. **Royalties**: the seconds each artist was played in the last 30 days, with the
   artist's name, top 5.
2. **Regional chart**: the songs played most in the last 7 days by users from
   Guatemala ("GT"), top 10.
3. **Zombies**: Premium subscribers with no play in the last 30 days, at most 5.
4. **Demographics**: plays of Reggaeton songs, counted per age range of the
   listener.
5. **Heavy users**: the 5 users with the most distinct Bad Bunny songs played, with
   their usernames.

The project has three layers:

- `Documents.dfy` holds one datatype per collection.
- `Stages.dfy` holds the pipeline stages as pure functions over sequences:
  `$match`, `$project`, `$limit`, `$lookup` (on equal keys, and correlated with a
  sub-pipeline), `$unwind`, `$group` with `$sum`, `$count` and `$addToSet`,
  `$sort` (descending) and `$bucket`. It also holds the general facts about these
  stages, such as inner-join membership, join sizes, group contents, top-k and
  bucket totals.
- One module per report composes those stages as the source does. It states each
  report's promise against an independent reference definition, for example "the
  seconds played by this artist since the cutoff" or "the set of distinct Bad Bunny
  songs this user played".

Modelling choices:

- **Cutoffs.** The cutoffs `lastMonth` and `lastWeek` are integer parameters.
  Dates are integers compared with `>=`.
- **Age.** The `$dateDiff` age is a parameter function from birth date to years.
- **Report rows.** A row keeps the `_id` that `$project` keeps implicitly. It is
  called `id`, because Dafny reserves a leading underscore.
- **Joins.** `$lookup` followed by `$unwind` is an inner join with multiplicity. A
  local document with two matching foreign documents yields two rows. Where a
  property depends on `_id` being unique, as MongoDB enforces, the lemma takes
  `UniqueKeys` as a premise and says so.

## Model

| member | source | states |
|---|---|---|
| Stages.Match | database/queries.js:31 | `$match` keeps exactly the documents that satisfy the predicate, and never more documents than it was given |
| Stages.MatchIsSubsequence | database/queries.js:126 | `$match` keeps the relative order of the documents it keeps |
| Stages.Project | database/queries.js:51-56 | `$project` yields one document per input, in order, each the reshaped input |
| Stages.Limit | database/queries.js:58 | `$limit: n` yields the first min(n, size) documents |
| Stages.CorrelatedLookup | database/queries.js:128-146 | every document is paired with exactly the foreign documents its sub-pipeline selects, with the document's `_id` bound into the sub-filter |
| Stages.Lookup | database/queries.js:40-47 | every document is paired with exactly the foreign documents whose `foreignField` equals its `localField`; the array is empty when none does |
| Stages.Unwind | database/queries.js:49 | `$unwind` yields one pair per element of the attached array: the output's size is the sum of the array sizes, and a pair appears exactly when its foreign document is in its local document's array. A document with an empty array disappears |
| Stages.JoinMembers | database/queries.js:40-49 | `$lookup` then `$unwind` yields exactly the pairs of a local document and a foreign document with equal keys (inner join, both directions) |
| Stages.JoinSize | database/queries.js:40-49 | the join yields, per local document, as many rows as it has matching foreign documents |
| Stages.JoinSizeUnique | database/queries.js:253-261 | with unique foreign keys, the join keeps exactly the local documents whose key resolves: it never duplicates a row and never adds one |
| Stages.MatchDrops | database/queries.js:253-261 | a filter that rejects some document returns strictly fewer than it was given; with unique keys the user lookup and `$unwind` act as such a filter on the top listeners (JoinSizeUnique), so one without a user document shortens the report |
| Stages.Group | database/queries.js:33-38 | `$group` emits one row per distinct key, with distinct keys. Every input key has a row, every row's key comes from some input, and a row's aggregate is computed over exactly the documents with its key |
| Stages.GroupAggregate | database/queries.js:237-241 | the aggregate of any group row is the aggregate of the documents carrying its key |
| Stages.ToSet | database/queries.js:240 | `$addToSet` holds exactly the values of the group's documents, and has no more elements than there are documents |
| Stages.SumOf | database/queries.js:36 | the `$sum` aggregator gives 0 for no documents and val of a single document, and is additive over any split of a group |
| Stages.CountOf | database/queries.js:91 | the `$count` aggregator equals `$sum: 1` over the group |
| Stages.AddToSet | database/queries.js:240 | the `$addToSet` aggregator holds exactly the distinct values of the group's documents, never more of them than documents |
| Stages.SumIndicator | database/queries.js:253-261 | adding up 1 for every document that satisfies a filter counts them; this turns a join's per-document match counts, each 0 or 1 under unique keys, into the number of documents whose key resolves (used again for the Demographics total) |
| Stages.SortDesc | database/queries.js:57 | `$sort: { f: -1 }` returns a permutation of its input whose keys never increase |
| Stages.TopK | database/queries.js:57-58 | `$sort` then `$limit: n` keeps min(n, size) of the input documents, with non-increasing keys; every document left out has a key no larger than any kept one |
| Stages.TopKCandidate | database/queries.js:57-58 | any input document is kept, or n documents were kept and none has a smaller key |
| Stages.BucketOf | database/queries.js:204-207 | a value classified into a bucket lies in that bucket's half-open interval, and a value inside some interval is never classified as the default |
| Stages.BucketOfOther | database/queries.js:204-207 | with ascending boundaries, a value goes to the default bucket exactly when it is below the first boundary or at/above the last |
| Stages.Bucket | database/queries.js:203-211 | `$bucket` emits only non-empty buckets. Each row counts exactly the values that fall into its bucket, and every value's bucket has a row |
| Stages.BucketIdsDistinct | database/queries.js:206 | with ascending boundaries no bucket is listed twice |
| Stages.BucketTotal | database/queries.js:203-211 | with ascending boundaries, the bucket counts add up to the number of values bucketed |
| Royalty.Royalties | database/queries.js:57-58 | the royalty report has at most 5 rows, in non-increasing order of total play time |
| Royalty.RoyaltyRows | database/queries.js:31-56 | every row before sorting carries the name and `_id` of an artist document, so an `artist_id` without one produces no row |
| Royalty.GroupTotal | database/queries.js:31-38 | the `$sum` of `seconds_played` for an artist's group equals that artist's seconds played since the cutoff, counted stream by stream |
| Royalty.RoyaltyRowSound | database/queries.js:31-56 | every row before sorting is an artist with an artist document and a recent play, carrying its name and exact recent play time |
| Royalty.RoyaltyRowComplete | database/queries.js:31-56 | every artist with a document and a recent play has a row before sorting |
| Royalty.RoyaltyTotals | database/queries.js:31-54 | every returned row's `total_play_time_seconds` is the artist's seconds played since `lastMonth`, and the artist has a document; an `artist_id` without one produces no row |
| Royalty.RoyaltyTop5 | database/queries.js:57-58 | an artist with a document and recent plays is in the report, or the report has 5 rows and none has a smaller total |
| Royalty.RoyaltyOnePlay | database/queries.js:29-59 | one 120-second play 10 days ago by artist "A" gives exactly the row `A, 120` |
| Regional.TopRegional | database/queries.js:112-113 | the chart has at most 10 rows, in non-increasing order of `streams` |
| Regional.LocalPlays | database/queries.js:74-86 | every play kept before `$group` is a stream of the collection at or after `lastWeek`, paired with a GT user document whose `_id` is the stream's `user_id` |
| Regional.RegionalRows | database/queries.js:88-111 | every row before sorting carries the title and artist of a song document with its `_id`, so a `song_id` without one produces no row |
| Regional.LocalPlaysOne | database/queries.js:74-86 | one stream contributes to a song's count once per GT user document with its `user_id` when it is recent and of that song, and nothing otherwise |
| Regional.GroupCount | database/queries.js:74-93 | the `$count` of a song's group is its number of recent GT plays |
| Regional.GTPlaysUnique | database/queries.js:76-86 | with unique user `_id`s, a song's GT play count is exactly the number of recent plays of it by users with a GT document |
| Regional.RegionalRowSound | database/queries.js:74-111 | every row before sorting is a song with a document and at least one recent GT play, carrying its title, artist and exact GT play count |
| Regional.RegionalRowComplete | database/queries.js:74-111 | every song with a document and recent GT plays has a row before sorting |
| Regional.RegionalCounts | database/queries.js:74-113 | every returned row's `streams` is the song's number of recent GT plays, at least one, and the song has a document; a `song_id` without one produces no row |
| Regional.RegionalTop10 | database/queries.js:112-113 | a song with a document and recent GT plays is in the chart, or the chart has 10 rows and none has fewer plays |
| Zombies.Zombies | database/queries.js:157 | the zombie report has at most 5 rows |
| Zombies.ZombieRows | database/queries.js:126-156 | before `$limit`, there are never more rows than Premium users |
| Zombies.NoRecentPlaysIffInactive | database/queries.js:128-148 | the correlated lookup finds no stream for a user exactly when the user has no play at or after `lastMonth` |
| Zombies.ZombieRowsCons | database/queries.js:126-156 | before `$limit`, each user is kept (as its row) exactly when Premium and inactive, independently of the others and in collection order |
| Zombies.ZombieRowSound | database/queries.js:126-156 | every row before `$limit` comes from a Premium, inactive user of the collection |
| Zombies.ZombiesSound | database/queries.js:126-148 | every returned row is Premium, is some user's row, and no stream of that user is at or after `lastMonth` |
| Zombies.ZombiesExcludeActive | database/queries.js:128-148 | a user with even one play at or after `lastMonth` never appears |
| Zombies.ZombieRowComplete | database/queries.js:126-156 | every inactive Premium user, with no plays at all or only older ones, is kept before `$limit` |
| Zombies.ZombiesComplete | database/queries.js:126-157 | an inactive Premium user is reported, or 5 users already fill the report |
| Zombies.ZombieRowsInOrder | database/queries.js:126-156 | before `$limit`, the rows are an order-preserving subsequence of the users collection |
| Zombies.ZombiesInOrder | database/queries.js:124-157 | the report is an order-preserving subsequence of the users collection |
| Zombies.ZombieRowsKeep | database/queries.js:126-156 | an inactive Premium user at the head of the collection heads the rows |
| Zombies.ZombieRowsDrop | database/queries.js:128-148 | a user at the head of the collection with a recent play contributes no row |
| Zombies.ZombiesThreeUsers | database/queries.js:124-158 | of three Premium users, the one who never played and the one who last played 45 days ago are reported; the one who played 5 days ago is not |
| Demographics.AgeBucket | database/queries.js:204-207 | ages map to [0,18)→0, [18,25)→18, [25,35)→25, [35,50)→35 and [50,100)→50; any other age maps to "Other" |
| Demographics.ReggaetonPlays | database/queries.js:170-179 | every play kept is a stream of the collection paired with a Reggaeton song document whose `_id` is the stream's `song_id` |
| Demographics.Listens | database/queries.js:181-189 | the listens are exactly the Reggaeton plays paired with a user document whose `_id` is the play's `user_id` |
| Demographics.Demographics | database/queries.js:168-213 | the report emits only non-empty age ranges, and the range of every listen has a row; the exact counts are stated by DemographicsRows and their sum by DemographicsTotal |
| Demographics.DemographicsRows | database/queries.js:203-211 | only non-empty ranges are emitted, each counting exactly the listens whose age falls into it |
| Demographics.PlaysListenCount | database/queries.js:170-189 | per stream, the joins yield one listen per matching Reggaeton song document times one per matching user document |
| Demographics.DemographicsTotal | database/queries.js:170-211 | the counts add up to the number of listens: per stream, the Reggaeton song matches times the user matches |
| Demographics.DemographicsTotalUnique | database/queries.js:170-211 | with unique `_id`s, the counts add up to the number of plays of a Reggaeton song by a user with a document: per play, not per distinct user |
| Demographics.DemographicsPerPlay | database/queries.js:168-213 | one user who played the same Reggaeton song twice contributes 2 to the counts |
| HeavyUsers.TopListeners | database/queries.js:250-251 | at most 5 users are kept before the user lookup, in non-increasing order of distinct-song count |
| HeavyUsers.SongCounts | database/queries.js:237-247 | after `$group` and the size `$project`, no user has two rows |
| HeavyUsers.GroupSongRow | database/queries.js:237-241 | a `$group` row's `$addToSet` is its user's set of distinct Bad Bunny songs, and is non-empty |
| HeavyUsers.GroupSongSet | database/queries.js:226-241 | a user's `$addToSet` is exactly the set of distinct `song_id`s among that user's plays whose artist document is named "Bad Bunny" |
| HeavyUsers.PlayIsBadBunny | database/queries.js:226-235 | every joined Bad Bunny play is a stream whose artist has a "Bad Bunny" document |
| HeavyUsers.BadBunnyPlayOf | database/queries.js:226-239 | every Bad Bunny play of a user survives the artist join and the name filter into that user's group |
| HeavyUsers.SongCountSound | database/queries.js:226-248 | every row after `$group` has `unique_songs_count` equal to the number of distinct Bad Bunny songs its user played, at least one |
| HeavyUsers.SongCountComplete | database/queries.js:226-248 | every user with a Bad Bunny play has a row after `$group` |
| HeavyUsers.SongCountBound | database/queries.js:237-241 | a user's distinct-song count is at most that user's number of Bad Bunny plays |
| HeavyUsers.RepeatListen | database/queries.js:237-241 | another play of a song the user already counted leaves the distinct-song set unchanged |
| HeavyUsers.HeavySound | database/queries.js:223-266 | every returned row carries its user's username from a user document and that user's exact number of distinct Bad Bunny songs, at least one |
| HeavyUsers.HeavyTop5 | database/queries.js:250-251 | a user with a Bad Bunny play is among the top listeners, or 5 were kept and none has a smaller count |
| HeavyUsers.HeavyAtMost5 | database/queries.js:253-261 | with unique user `_id`s, the report has one row per top listener with a user document, so at most 5 rows |
| HeavyUsers.HeavyDropped | database/queries.js:253-261 | a top listener without a user document is dropped, not replaced, so fewer rows than top listeners come out |
| HeavyUsers.NamedRowsCons | database/queries.js:253-266 | the first top listener's rows, one per matching user document, come before the others' |
| HeavyUsers.NamedRowsBound | database/queries.js:253-266 | every named row carries the `_id` and the count of one of the top listeners, so an upper bound on the top listeners' counts bounds the rows' |
| HeavyUsers.NamedRows | database/queries.js:253-266 | every named row carries the username of a user document with its `_id` |
| HeavyUsers.NamedRowsInOrder | database/queries.js:253-266 | the user lookup keeps the non-increasing order of the counts |
| HeavyUsers.HeavyUsers | database/queries.js:223-268 | the report's rows are in non-increasing order of `unique_bad_bunny_songs`; their exact counts and usernames are stated by HeavySound, their number by HeavyAtMost5 |

## Left out

- Connection handling: connecting, closing, `async`/`await`, the `try`/`catch`/`finally` block and the console output (`database/queries.js:6-17`, `60`, `272-279`). This is I/O and has no logic to model.
- Cutoff arithmetic: the clock reads and the `setDate(getDate() - 30)` / `- 7` arithmetic (`database/queries.js:26-27`, `69-70`). `lastMonth` and `lastWeek` are parameters. Local time, daylight-saving time and month rollover are not modelled.
- Age arithmetic: `$dateDiff` with `unit: "year"` and `new Date()` (`database/queries.js:193-199`). The age is a parameter function `age: Date -> int`. The calendar rule that counts year boundaries crossed is not modelled.
- Demographics.DemographicsTotal: a missing or null `birth_date` is not modelled. MongoDB's `$dateDiff` would give null, and `$bucket` would put that listen under "Other". Here every user has a birth date.
- Royalty.Royalties: tie order is not modelled. `$sort` is modelled as a stable insertion sort so that the result is a function. MongoDB does not promise an order among equal keys, so no lemma says which of several equal totals is kept or in which order they come. The same holds for Regional.TopRegional and HeavyUsers.TopListeners.
- `$group` output order: `$group` emits keys in first-occurrence order in this model. MongoDB leaves that order unspecified, and no stated property depends on it.
- `$sum` coercion of a missing or non-numeric `seconds_played`: the field is a `nat` here.
- Open-schema documents: each collection and each intermediate stage output has a fixed datatype. Missing fields and extra fields are not represented.
- HeavyUsers.HeavyAtMost5: requires unique user `_id`s, which MongoDB enforces on every collection. With duplicate user documents, the join would repeat a top listener and the report could exceed 5 rows. HeavyUsers.HeavyDropped, Regional.GTPlaysUnique and Demographics.DemographicsTotalUnique take the same premise. Their multiplicity-counting counterparts (Regional.RegionalCounts, Demographics.DemographicsTotal) hold without it.
- Determinism of a re-run (the same inputs give the same output) is not stated as a lemma. It holds because every report is a Dafny function of its inputs.
