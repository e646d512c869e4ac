# Volleyball team builder and session statistics, in Dafny

This project models the core of a volleyball session organiser.

- **The team optimizer** (`scripts/voley_teams.ts`) turns rated players into balanced mixed teams in five steps:
  - it scores each player: six 1..10 category ratings, weighted, and adjusted by mood;
  - it computes target team sizes;
  - it seeds the women first, dealing them in serpentine order into per-team buckets;
  - it seeds everyone else in serpentine order by smash rating;
  - it improves the result with random same-gender swaps, keeping a swap only when the imbalance cost does not rise.
- **The round-robin generator** (`convex/sessions.ts`) gives a new session one match per pair of teams.
- **The statistics** (`convex/playerStats.ts`) count, per player, the matches played, won and lost, plus per-teammate counters. They derive winrates and the good and bad teammate lists, and build the table of all players sorted by winrate.

How the source's forms are kept:

- A team's running aggregates are updated in place, so `Teams.Team` is a class whose methods `modifies` it.
- The seeding and swap loops are methods over a `seq<Team>`, with loop invariants.
- Pure code is written as functions:
  - the strength vector;
  - the cost;
  - target sizes;
  - filters and maps.
- Each method is proved against such functions, and lemmas state what the source promises of them.

Modelling choices:

- Numbers are `real` (exact arithmetic), and ratings and scores are `int`.
- `Math.random()` is a stream `rng: nat -> Unit` of draws in [0, 1), consumed in the order the source draws.
- The database reads of the statistics queries become parameters:
  - the session teams and matches;
  - a map from player id to name;
  - the list of players.
- `Array.prototype.sort` is modelled as a stable descending sort (`Sorting.SortDesc`).
- Where the descriptive documentation and the code disagree, the model follows the code:
  - seeding sorts by raw smash rating only;
  - the women buckets are filled in serpentine order;
  - the options have no balance mode and no constraints.

Players with duplicate ids are accepted, as in the source. The claims that depend on each player being placed exactly once are stated under `UniqueIds(players)`: completeness, exact sizes, exact aggregates and women targets.

## Model

| member | source | states |
|---|---|---|
| Strength.MoodNorm | scripts/voley_teams.ts:64-71 | succeeds exactly for moods in 1..10 (otherwise the mood error); the result lies in [-1, 1], with 1 mapped to -1, 10 to +1 and 5.5 to 0 |
| Strength.FirstOutOfRange | scripts/voley_teams.ts:88 | finds the first rating outside 1..10, or none exactly when every rating is in range |
| Strength.Weighted | scripts/voley_teams.ts:91 | the weighted vector has six entries, entry i being rating i times weight i |
| Strength.PlayerVectorStrength | scripts/voley_teams.ts:73-96 | succeeds iff all six ratings and a present mood lie in 1..10; otherwise it returns the error of the first bad category (all earlier ones are valid) or the mood error, and any bad category makes it a category error whatever the mood. On success: vec is weight times rating per category; baseTotal is the sum of vec; total = baseTotal * (1 + moodWeight * moodNorm); smashRaw is the smash rating; a present mood m gives moodNorm = (m - 5.5) / 4.5; an absent mood gives moodNorm 0 and total = baseTotal |
| Strength.InRange | scripts/voley_teams.ts:64-66 | `assertRange` passes exactly when lo <= v <= hi |
| Strength.MoodGap | scripts/voley_teams.ts:93-94 | moods 10 and 1 change only the total, by exactly 2 * moodWeight * baseTotal |
| Teams.CountWomenRemove | scripts/voley_teams.ts:117 | removing a member removes one woman exactly when that member is a woman |
| Teams.Team.constructor | scripts/voley_teams.ts:98-100 | an empty team: no members, every aggregate 0, six zero category sums, and exact |
| Teams.Team.Add | scripts/voley_teams.ts:102-109 | appends exactly that player; adds the vector to total, baseTotal, each category sum and moodSum; women grows by 1 only for F; exact aggregates stay exact |
| Teams.Team.RemoveAt | scripts/voley_teams.ts:111-120 | returns member idx and removes exactly it; subtracts the given vector from every aggregate; women drops by 1 only for F; aggregates stay exact when the vector is the member's own |
| Teams.AddThenRemove | scripts/voley_teams.ts:102-120 | removing the last member with the vector it was added with undoes an add: the player comes back and members, vectors, total, baseTotal, category sums, women and moodSum are as before |
| Teams.AddEach | scripts/voley_teams.ts:106 | every category sum grows by the matching vector entry |
| Teams.SubtractEach | scripts/voley_teams.ts:116 | every category sum shrinks by the matching vector entry |
| Teams.AddKeepsValid | scripts/voley_teams.ts:102-109 | aggregates that are exact sums over the members stay exact after an add, and the women count stays the number of women |
| Teams.RemoveKeepsValid | scripts/voley_teams.ts:111-120 | removing member idx with its own vector keeps the aggregates exact and the women count right, so add-then-remove restores every field |
| Teams.AddKeepsSums | scripts/voley_teams.ts:103-108 | adding a vector to exact sums gives the exact sums of the longer member list |
| Teams.RemoveKeepsSums | scripts/voley_teams.ts:113-118 | subtracting member idx's vector gives the exact sums of the list without it |
| Cost.Average | scripts/voley_teams.ts:133 | an empty team averages 0; otherwise average times size equals the sum |
| Cost.PopVariance | scripts/voley_teams.ts:134-135 | a population variance is never negative |
| Cost.PopVarianceOfConstant | scripts/voley_teams.ts:134-135 | equal values have variance 0 |
| Cost.TotalAverages | scripts/voley_teams.ts:133 | one per-member average of the total per team |
| Cost.CategoryAverages | scripts/voley_teams.ts:143 | one per-member average of category c per team |
| Cost.MoodAverages | scripts/voley_teams.ts:160 | one per-member average of the mood sum per team |
| Cost.CategoryWeight | scripts/voley_teams.ts:147-149 | the squared weight, scaled for smash by attackPriorityFactor, is non-negative when that factor is |
| Cost.WeightedCategoryVariance | scripts/voley_teams.ts:142-153 | the weighted sum of category variances is non-negative when attackPriorityFactor is |
| Cost.CategoryWeightSum | scripts/voley_teams.ts:142-153 | the sum of the category weights is non-negative when attackPriorityFactor is |
| Cost.VarCatsNorm | scripts/voley_teams.ts:138-155 | 0 unless lambdaCat > 0; non-negative when attackPriorityFactor is |
| Cost.VarMood | scripts/voley_teams.ts:158-163 | 0 unless lambdaMood > 0; never negative |
| Cost.ComputeCost | scripts/voley_teams.ts:123-166 | varTotals + lambdaCat * varCatsNorm + lambdaMood * varMood is at least varTotals, which is at least 0, whenever attackPriorityFactor >= 0 |
| Cost.CategoryVarianceZero | scripts/voley_teams.ts:143-145 | teams with equal averages have category variance 0 |
| Cost.BalancedCategories | scripts/voley_teams.ts:142-153 | categories of variance 0 contribute nothing |
| Cost.BalancedCostsZero | scripts/voley_teams.ts:123-166 | teams whose averages agree in total, every category and mood cost exactly 0, the minimum |
| Sorting.Insert | scripts/voley_teams.ts:175 | inserting keeps the sequence sorted descending and adds exactly that element |
| Sorting.SortDesc | scripts/voley_teams.ts:175 | the result is a permutation of the input, sorted by descending key |
| Sorting.InsertBeforeTies | scripts/voley_teams.ts:175 | an inserted element lands in front of every element whose key ties with it, which keep their order |
| Sorting.SortDescStable | scripts/voley_teams.ts:175 | the sort is stable: for every key, the elements with that key keep their input order |
| Snake.PhaseAfter | scripts/voley_teams.ts:183-204 | the snake's phase stays in [0, 2k) |
| Snake.Visited | scripts/voley_teams.ts:183-204 | the snake always looks at a valid team index |
| Snake.Advance | scripts/voley_teams.ts:190-202 | one step stays a team index and moves by at most one; it turns round only at either end, staying there |
| Snake.FullRound | scripts/voley_teams.ts:183-204 | 2k steps bring the snake back to the phase it started at |
| Snake.ChoseUnique | scripts/voley_teams.ts:181-216 | the snake's choice of team and next phase is fixed by the sizes, the targets and the phase: first team below target in snake order, else (phase unchanged) the first team of fewest members |
| Snake.DealtStep | scripts/voley_teams.ts:180-216 | placing one more item by the snake's choice extends the record of the deal by that placement |
| Snake.DealtPrefix | scripts/voley_teams.ts:180-216 | the first n - 1 placements of a deal are a deal |
| Snake.DealtUnique | scripts/voley_teams.ts:180-216 | the deal is a function of the starting groups, the items and the targets: any two records of it agree in every group, choice and phase |
| Snake.AdvanceStep | scripts/voley_teams.ts:190-202 | one `i++`/`i--` step with turning at either end advances the phase by one, modulo 2k |
| Snake.PhaseAfterValue | scripts/voley_teams.ts:183-204 | within 2k steps the phase wraps round at most once |
| Snake.StepsTo | scripts/voley_teams.ts:183-204 | every team index is visited within 2k steps of any phase |
| Targets.TargetSizes | scripts/voley_teams.ts:239-241 | k sizes, non-increasing by index, any two differing by at most 1, and at most 1 when n < k |
| Targets.PrefixSum | scripts/voley_teams.ts:239-241 | the first m sizes sum to m * floor(n/k) + min(m, n mod k) |
| Targets.TargetSizesSum | scripts/voley_teams.ts:239-241 | the sizes sum to exactly n |
| Targets.TargetSizesMonotone | scripts/voley_teams.ts:239-241 | fewer players never give any team a larger target |
| Targets.TargetWomen | scripts/voley_teams.ts:249-254 | the floor/remainder split of the women count when women go first and there is one; otherwise all zero |
| Groups.FitsSumExact | scripts/voley_teams.ts:239-241 | sizes within their targets and with the same total are the targets |
| Groups.InFlatten | scripts/voley_teams.ts:256 | a player is among the teams iff some team holds it |
| Groups.FlattenConcat | scripts/voley_teams.ts:256 | the players of all teams are those of the teams laid end to end |
| Groups.FlattenUpdate | scripts/voley_teams.ts:256 | changing one team changes the union by exactly that team's change |
| Groups.EmptyGroups | scripts/voley_teams.ts:256 | empty teams hold nobody and have total size 0 |
| Groups.FlattenAdd | scripts/voley_teams.ts:103 | adding a member to one team adds exactly that player overall |
| Groups.FlattenExchange | scripts/voley_teams.ts:335-338 | two teams trading members leave the players overall unchanged |
| Groups.LengthsExchange | scripts/voley_teams.ts:335-338 | two teams trading one member for one keep their sizes |
| Groups.GrowOne | scripts/voley_teams.ts:183-216 | a placement adds one to the total size and keeps teams within their targets while there is room |
| Groups.FewestMembers | scripts/voley_teams.ts:206-216 | the first index with the fewest members: no team is smaller and every earlier team is larger |
| Seeding.PlayersOfPermutation | scripts/voley_teams.ts:175 | reordering the items does not change the players placed |
| Seeding.AddAt | scripts/voley_teams.ts:194 | team j gains the item's player and women count; every team stays exact |
| Seeding.SnakeWalk | scripts/voley_teams.ts:183-204 | either the item went to the first team below its size target in snake order (every team seen before it is at its target, and the snake stops one step past it), or nothing changed, every team the 2k steps saw is at its target and the snake is back at its phase |
| Seeding.PlaceFewest | scripts/voley_teams.ts:206-216 | the fallback adds the item to the first team with the fewest members |
| Seeding.PlaceOne | scripts/voley_teams.ts:181-216 | the item goes to exactly one team, the snake's choice (`Chose`): the first team below its target in snake order, with the snake one step past it; or, when every team is at its target, the snake back at its phase and the first team with the fewest members |
| Seeding.ProgressAtStart | scripts/voley_teams.ts:178-181 | before the first item nothing is placed |
| Seeding.PlacedOne | scripts/voley_teams.ts:181-216 | one placement adds exactly that player, adds one to the total size and keeps teams within their targets |
| Seeding.NoWomanAdded | scripts/voley_teams.ts:107 | placing a man leaves every women count unchanged |
| Seeding.PlaceNext | scripts/voley_teams.ts:181-216 | one iteration adds the next item's player to the team of the snake's choice from the current phase, and keeps the progress invariant |
| Seeding.PlaceAll | scripts/voley_teams.ts:178-217 | the items are dealt in the order given, from team 0 going forward: the final rosters are the end of a deal record (`Dealt`) in which each item joins the team of the snake's choice; the teams gained exactly the items' players, the total size grew by their number, and teams stay exact |
| Seeding.SeedBySmashSerpentine | scripts/voley_teams.ts:169-218 | the items are taken by descending smash (`SortDesc` on the smash rating, stable) and dealt in that order by the snake from team 0; every item lands in exactly one team and every team stays exact; women counts do not move when no item is a woman; when the items fit the free room no team passes its target and the sizes grow by exactly the item count |
| Seeding.SeedContents | scripts/voley_teams.ts:175 | the sorted items place the players of the unsorted ones |
| Buckets.BucketWalk | scripts/voley_teams.ts:266-283 | either the woman went to the first bucket in snake order below its women target (every bucket seen before it is at its target, and the snake stops one step past it), or nothing changed, every bucket is at its target and the snake is back at its phase |
| Buckets.BucketOne | scripts/voley_teams.ts:266-291 | the woman goes to exactly one bucket, the snake's choice (`Chose`): the first bucket below its women target in snake order, with the snake one step past it; or, when all are full, the snake back at its phase and the first bucket with the fewest women |
| Buckets.BucketWomen | scripts/voley_teams.ts:259-291 | the women are dealt in the order given into empty buckets, from bucket 0 going forward: the buckets are the end of a deal record in which each woman joins the bucket of the snake's choice; every woman lands in exactly one bucket; when there is room for all of them no bucket passes its women target |
| Buckets.BucketedOne | scripts/voley_teams.ts:266-291 | one bucketing adds exactly that woman and keeps buckets within their targets |
| Buckets.Room | scripts/voley_teams.ts:294-298 | a team takes women until its size target: none when it is already there |
| Buckets.RoomFits | scripts/voley_teams.ts:294-298 | pouring never passes the size target, and a bucket that fits is poured whole |
| Buckets.TakeNext | scripts/voley_teams.ts:296 | adds the next woman of the bucket to the team, keeping it exact |
| Buckets.PourBucket | scripts/voley_teams.ts:295-297 | the team takes the first women of its bucket that fit, in order, and nothing else changes |
| Buckets.TakeOne | scripts/voley_teams.ts:296 | one more woman taken adds her to the roster and one to the women count |
| Buckets.PourBuckets | scripts/voley_teams.ts:294-298 | each team gets exactly the fitting prefix of its bucket, and its women count grows by that many women |
| Refine.Draw | scripts/voley_teams.ts:317-318 | `Math.floor(u * n)` is an index below n |
| Refine.GenderIndicesSpec | scripts/voley_teams.ts:310 | lists exactly the positions of gender g, each once, in increasing order |
| Refine.Pick | scripts/voley_teams.ts:309-314 | -1 exactly when no member has gender g; otherwise the position of a member of gender g |
| Refine.PickIndexWithGender | scripts/voley_teams.ts:309-314 | the loop collects the positions of gender g and returns `Pick`: the draw's choice among them, or -1 when there is none |
| Refine.Genre | scripts/voley_teams.ts:324 | the drawn gender is F exactly when the draw is below 0.5 |
| Refine.Replace | scripts/voley_teams.ts:335-338 | member idx leaves and p joins at the end; every aggregate moves by the difference of the vectors; exactness is kept |
| Refine.Shift | scripts/voley_teams.ts:335-338 | trading vectors keeps the size and the category count of the view |
| Refine.ShiftBack | scripts/voley_teams.ts:345-348 | trading back restores the view exactly |
| Refine.MoveToEnd | scripts/voley_teams.ts:345-348 | a member moved to the end leaves the team's players unchanged |
| Refine.ExchangeBags | scripts/voley_teams.ts:335-338 | two members trading teams keep the players of the two teams together |
| Refine.KnownVector | scripts/voley_teams.ts:307 | a member of a sound team is known to the id map, with the vector it was added with |
| Refine.KeptHolds | scripts/voley_teams.ts:316-350 | the swap-loop invariant gives the rosters, views and exactness it bundles |
| Refine.HoldsKept | scripts/voley_teams.ts:306-316 | the seeded teams satisfy the swap-loop invariant |
| Refine.ReplacedKnown | scripts/voley_teams.ts:307 | after a replacement every member is still known to the id map |
| Refine.ReplaceOk | scripts/voley_teams.ts:335-338 | one side of the exchange: the women count stays, the roster and view change as traded |
| Refine.Trade | scripts/voley_teams.ts:333-338 | member ia of team a and member ib of team b, of the same gender, change teams with their vectors from the id map |
| Refine.Untrade | scripts/voley_teams.ts:345-348 | the revert gives each team its member back at the end and restores both views |
| Refine.TradeAt | scripts/voley_teams.ts:333-338 | the exchange on the team sequence; every other team is untouched |
| Refine.UntradeAt | scripts/voley_teams.ts:345-348 | the revert on the team sequence; the invariant holds for the rosters with the members moved back |
| Refine.KeptViews | scripts/voley_teams.ts:340 | the cost function sees the snapshot views |
| Refine.SwapViews | scripts/voley_teams.ts:335-338 | the views after two vectors trade teams are well formed and every other team's view is untouched |
| Refine.Exchanged | scripts/voley_teams.ts:335-348 | the rosters after a kept or reverted swap differ from the old ones only at the two teams |
| Refine.SwappedRosters | scripts/voley_teams.ts:335-348 | kept or reverted, a swap leaves every size and the players overall unchanged; reverted, every team keeps its own players |
| Refine.TrySwap | scripts/voley_teams.ts:333-349 | the swap is kept exactly when the cost of the traded views is at most bestCost, and then the rosters and views are the traded ones; otherwise the views are the old ones and each member is back at the end of its own team; the cost held is the cost of the teams and never above bestCost; sizes, women counts and players overall are unchanged |
| Refine.ChooseSwap | scripts/voley_teams.ts:317-327 | the draws of one iteration (`Drawn`): a from draw d, b from draw d+1 moved on when equal to a; when a team is empty nothing more is drawn (next = d+2); otherwise a gender from draw d+2 and, in each team, `Pick` with the next draw, which is used only when the team has that gender; found exactly when both picks exist, and then the two members share the gender |
| Refine.SwapRound | scripts/voley_teams.ts:317-349 | one iteration on rosters rs: the draws are those of `Drawn` on rs; a skipped iteration changes nothing (cost, rosters and views as before); a found pair is tried as `Swapped` states (kept exactly when the cost does not rise); sizes, women counts and players overall unchanged, and cost never above bestCost |
| Refine.RefineBySwaps | scripts/voley_teams.ts:316-350 | after all iterations the sizes, women counts and players overall are unchanged, exactness is kept, and bestCost is the teams' cost and no higher than at the start |
| Meta.FirstInvalid | scripts/voley_teams.ts:244 | the first player with an out-of-range rating, or none exactly when all are valid |
| Meta.StrengthAll | scripts/voley_teams.ts:244 | succeeds iff every player is valid, with one entry per player in order; otherwise the first bad player's error |
| Meta.StrengthShaped | scripts/voley_teams.ts:244 | every strength vector has six entries |
| Meta.OfGender | scripts/voley_teams.ts:245-246 | keeps only entries of the requested side, taken from the input |
| Meta.SplitByGender | scripts/voley_teams.ts:245-246 | the two filters split the entries: each goes to exactly one side |
| Meta.WomenCounted | scripts/voley_teams.ts:245 | the women filter has one entry per woman |
| Meta.NoWomenLeft | scripts/voley_teams.ts:249-254 | an empty women filter means no entry is a woman |
| Meta.Unplaced | scripts/voley_teams.ts:302 | exactly the entries whose id no team member has |
| Meta.UnplacedAreMen | scripts/voley_teams.ts:302 | when exactly the women are placed, `malesLeft` is the men's filter |
| Meta.NothingPlaced | scripts/voley_teams.ts:302 | with empty teams every entry is left |
| Meta.SameId | scripts/voley_teams.ts:302 | with unique ids, an id identifies the entry |
| Meta.WomanPlaced | scripts/voley_teams.ts:302 | every woman's id is placed after the women pass |
| Meta.PlacedWoman | scripts/voley_teams.ts:302 | with unique ids, a placed id is a woman's |
| Meta.PlacedIffWoman | scripts/voley_teams.ts:302 | with unique ids, an id is placed after the women pass iff it is a woman's |
| Meta.VectorsById | scripts/voley_teams.ts:307 | every entry's id has a vector |
| Meta.VectorsLast | scripts/voley_teams.ts:307 | an id maps to the vector of its last entry (later entries overwrite) |
| Meta.VectorsFrom | scripts/voley_teams.ts:307 | every vector in the map is some entry's |
| Meta.VectorsOfUnique | scripts/voley_teams.ts:307 | with unique ids the map gives every entry its own vector |
| Meta.PlayersOfConcat | scripts/voley_teams.ts:294-298 | the players of concatenated buckets are the concatenated players |
| Meta.AllWomen | scripts/voley_teams.ts:294-298 | a bucket of women counts every member as a woman |
| Meta.PlayersOfSplit | scripts/voley_teams.ts:245-246 | entries split in two hold, together, the players of the whole |
| Builder.EmptyTeams | scripts/voley_teams.ts:256 | k new, distinct, empty, exact teams |
| Builder.EmptyAllValid | scripts/voley_teams.ts:256 | empty teams are exact |
| Builder.BucketMembers | scripts/voley_teams.ts:259-291 | every bucketed entry is one of the women |
| Builder.PouredBucket | scripts/voley_teams.ts:294-298 | a bucket within the size target is poured whole, all women |
| Builder.PouredBuckets | scripts/voley_teams.ts:294-298 | after pouring, the teams hold exactly the women, within the women targets, and each women count is the team size |
| Builder.PouredPlayers | scripts/voley_teams.ts:294-298 | the poured players are exactly the women's players |
| Builder.SortedBuckets | scripts/voley_teams.ts:259-291 | femSorted is the women by descending smash (`SortDesc`), and the buckets are the snake's deal of femSorted into empty buckets; within the women targets, each woman once |
| Builder.PourWomen | scripts/voley_teams.ts:293-298 | the buckets poured into the empty teams: the teams hold exactly the women, within the women targets, and all their members are women |
| Builder.SeedWomen | scripts/voley_teams.ts:259-299 | the teams hold exactly the women, within the women targets, and all their members are women |
| Builder.SeedRest | scripts/voley_teams.ts:302-303 | the teams gain exactly the players of `malesLeft`, within the size targets when they fit |
| Builder.WomenSeeded | scripts/voley_teams.ts:302 | with unique ids, after the women pass the remaining entries are the men, and the teams are at the women targets |
| Builder.EveryoneSeeded | scripts/voley_teams.ts:302-303 | women then men make every player, once |
| Builder.NoWomenTargets | scripts/voley_teams.ts:249-254 | with no woman every women target is 0 |
| Builder.WomenFirstSeeded | scripts/voley_teams.ts:259-303 | women first, unique ids: exact target sizes, every player once, and women counts at the women targets |
| Builder.EmptyStart | scripts/voley_teams.ts:302 | without a women pass every entry is left for the second pass |
| Builder.AllTogetherSeeded | scripts/voley_teams.ts:302-303 | without a women pass: exact target sizes and every player once |
| Builder.SeedTeams | scripts/voley_teams.ts:256-303 | k exact teams; with unique ids they have the target sizes, hold every player once, and with women first hold the women targets |
| Builder.SaneAfterSeeding | scripts/voley_teams.ts:307 | every member is known to the id map |
| Builder.VectorsShaped | scripts/voley_teams.ts:307 | every vector in the id map has six entries |
| Builder.ExactTeam | scripts/voley_teams.ts:244 | every member's recorded vector is its strength vector |
| Builder.ExactOfEntries | scripts/voley_teams.ts:244 | the teams' aggregates are the sums of their members' strength vectors |
| Builder.StrengthPlayers | scripts/voley_teams.ts:244 | the entries are the players, in order |
| Builder.RefinePhase | scripts/voley_teams.ts:306-350 | sizes, women counts and players overall unchanged by the swaps; the final cost is at most the cost of the seeded teams; exact with unique ids |
| Builder.Max | scripts/voley_teams.ts:236 | the larger of the two |
| Builder.Resolve | scripts/voley_teams.ts:222-236 | K = max(2, numTeams); each undefined option takes its default and each given option is used as given |
| Builder.MissingTeams | scripts/voley_teams.ts:233 | the build stops exactly when numTeams is absent or 0 |
| Builder.Normalize | scripts/voley_teams.ts:369-378 | every option defined, numTeams present and non-zero, and the settings in force unchanged |
| Builder.BuildBalancedMixedTeams | scripts/voley_teams.ts:221-353 | a missing or zero numTeams throws; otherwise it throws iff some rating is out of range, with the first bad player's error; on success K distinct new teams, and with unique ids: target sizes, every player once, exact aggregates, and women targets when women go first |
| Builder.BuildTeamsFromPlayers | scripts/voley_teams.ts:368-380 | the same build with normalized options, so the only error is an out-of-range rating |
| Sessions.RoundRobin | convex/sessions.ts:7-15 | exactly the elements at every index pair i < j, row by row |
| Sessions.PairsBelowCount | convex/sessions.ts:9-12 | the first i rows hold (n-1) + ... + (n-i) pairs |
| Sessions.PairsCount | convex/sessions.ts:7-15 | n teams give n(n-1)/2 matches; 0 or 1 team gives none |
| Sessions.PairsBelowMembers | convex/sessions.ts:9-12 | the first i rows hold exactly the pairs with first index below i |
| Sessions.PairsMembers | convex/sessions.ts:9-12 | a pair appears iff i < j < n |
| Sessions.PairsBelowOrdered | convex/sessions.ts:9-12 | rows come in lexicographic order |
| Sessions.PairsOrdered | convex/sessions.ts:9-12 | the pairs come in strictly increasing lexicographic order, so each appears once |
| Sessions.NoSelfOrReversed | convex/sessions.ts:9-12 | no team meets itself, and no match appears reversed |
| PlayerStats.TeamsById | convex/playerStats.ts:49 | every team's id is a key, and each key maps to a team with that id |
| PlayerStats.PlayerTeamIds | convex/playerStats.ts:47 | exactly the ids of the teams listing the player |
| PlayerStats.RelevantMatches | convex/playerStats.ts:60-63 | exactly the matches in which one of the player's teams plays, each as many times as in the input |
| PlayerStats.RelevantMatchesAppend | convex/playerStats.ts:60-63 | the filter keeps order: filtering two runs one after the other is filtering each and concatenating |
| PlayerStats.Without | convex/playerStats.ts:125 | the ids other than the player, each kept as often as it appeared |
| PlayerStats.Winner | convex/playerStats.ts:96-97 | A iff scoreA > scoreB, B iff scoreB > scoreA, otherwise a draw |
| PlayerStats.Judge | convex/playerStats.ts:87-125 | skipped when a score or a team is missing or the player is on neither side; otherwise played, with a draw iff the scores tie, a win iff the player's side scored more, and as teammates the other ids of the player's side |
| PlayerStats.Judged | convex/playerStats.ts:86-133 | each match judged in order |
| PlayerStats.Tally | convex/playerStats.ts:105-121 | wins + losses <= played <= number of matches |
| PlayerStats.Winrate | convex/playerStats.ts:135-136 | 0 when nothing was played, otherwise wins / played, and within [0, 1] when wins <= played |
| PlayerStats.CreditsOf | convex/playerStats.ts:127-132 | each teammate of a match credited with that match's result |
| PlayerStats.TogetherIn | convex/playerStats.ts:127-132 | wins + losses <= matches together <= credits |
| PlayerStats.FirstSeen | convex/playerStats.ts:77-84 | exactly the credited teammates |
| PlayerStats.MateRowOf | convex/playerStats.ts:144-160 | the row of the teammate with that id |
| PlayerStats.MateRows | convex/playerStats.ts:144-160 | one row per teammate, in Map key order |
| PlayerStats.Keep | convex/playerStats.ts:164-170 | exactly the rows passing the filter, each as often as before |
| PlayerStats.TogetherAbsent | convex/playerStats.ts:77-84 | a teammate never credited has zero counters |
| PlayerStats.CreditOne | convex/playerStats.ts:127-132 | `ensureTeammate` plus one update keeps the Map equal to the counters of the credits, keys in first-seen order |
| PlayerStats.CountMate | convex/playerStats.ts:128-131 | the teammate's entry, created at zero if new, counts one more match with this result |
| PlayerStats.CreditsStep | convex/playerStats.ts:127-132 | crediting one more teammate appends one credit |
| PlayerStats.CreditMates | convex/playerStats.ts:127-132 | after the loop the Map tracks the credits of this match's teammates too |
| PlayerStats.NextMatch | convex/playerStats.ts:86-133 | one more match adds its verdict to the totals and its teammates to the credits |
| PlayerStats.PlayerStatsWithTeammates | convex/playerStats.ts:12-190 | the report is the counted summary, rows and lists of the player's relevant matches |
| PlayerStats.CounterRows | convex/playerStats.ts:139-160 | one teammate row per key of the Map, in key order |
| PlayerStats.CounterRowsMatch | convex/playerStats.ts:72-160 | counters that track the credits yield the rows computed from the credits |
| PlayerStats.TallyMatch | convex/playerStats.ts:247-276 | one more played, and a win or loss by the same rule, unless the match is skipped |
| PlayerStats.PlayerRowFor | convex/playerStats.ts:202-288 | the row of the player's counted matches |
| PlayerStats.RowOf | convex/playerStats.ts:278-287 | the row is the player's, with played as counted |
| PlayerStats.AllPlayersStats | convex/playerStats.ts:192-293 | the rows of every player, sorted by descending winrate |
| PlayerStats.RowsOf | convex/playerStats.ts:202-288 | one row per player, in order |
| PlayerStats.NoneRelevant | convex/playerStats.ts:60-63 | no team means no relevant match |
| PlayerStats.NoTeamNoMatch | convex/playerStats.ts:28-45 | a player in no team has no counted match |
| PlayerStats.NoTeamNoReport | convex/playerStats.ts:32-45 | the early return equals what the loop would give: zero counters, empty lists |
| PlayerStats.CreditsExclude | convex/playerStats.ts:124-132 | no credit goes to the player |
| PlayerStats.FirstSeenDistinct | convex/playerStats.ts:77-84 | each teammate is a Map key once |
| PlayerStats.TeammatesExcludePlayer | convex/playerStats.ts:124-175 | the teammate list never holds the player, and holds each teammate once |
| PlayerStats.RowsDistinct | convex/playerStats.ts:173-175 | a sorted teammate list still lists each teammate once |
| PlayerStats.RowOnce | convex/playerStats.ts:144-160 | rows of distinct teammates occur once each |
| PlayerStats.TogetherBlock | convex/playerStats.ts:127-132 | one match adds at most one match together with any teammate |
| PlayerStats.TogetherBounded | convex/playerStats.ts:105-132 | each teammate's counters stay within the player's |
| PlayerStats.MatesOnce | convex/playerStats.ts:124-125 | when no team lists an id twice, no match lists a teammate twice |
| PlayerStats.TeammatesBounded | convex/playerStats.ts:105-160 | playedTogether, winsTogether and lossesTogether never exceed the player's played, wins and losses |
| PlayerStats.MateRowRates | convex/playerStats.ts:147-150 | each row's winrate is its wins over matches together, within [0, 1] |
| PlayerStats.TeammateRates | convex/playerStats.ts:144-175 | the teammates, by descending winrate; each rate is wins over matches together |
| PlayerStats.TeammateLists | convex/playerStats.ts:164-170 | good = at least 3 together and winrate >= 0.6, descending; bad = at least 3 and <= 0.4, ascending; both exactly those teammates |
| PlayerStats.AllPlayersTable | convex/playerStats.ts:247-291 | one row per player, sorted by descending winrate, each counted by the same rule as the summary of `playerStatsWithTeammates` |
| PlayerStats.TableRows | convex/playerStats.ts:247-291 | every row of the sorted table is the summary row of one of the players |
| PlayerStats.RowIsSummary | convex/playerStats.ts:278-288 | a player's row has that player's id and name and the counters of the player's summary (this only unfolds the row's definition; that the counters follow the summary's rule is stated by `TallyMatch` and `PlayerRowFor`) |
| PlayerStats.NameOf | convex/playerStats.ts:154 | a known id gives its name, an unknown one "Inconnu" |
| PlayerStats.IsGood | convex/playerStats.ts:165 | a good teammate has at least 3 matches together and a winrate above 0.4 |
| PlayerStats.IsBad | convex/playerStats.ts:169 | a bad teammate has at least 3 matches together and is never also good |

## Left out

- Floating point: every score, average, variance and winrate is a `real`. The exact restoration of a team's sums when a swap is reverted holds in exact arithmetic. JavaScript doubles may drift slightly.
- `Math.random()`: only its use as a draw in [0, 1) is modelled (`Refine.Draw`, `Refine.Genre`). The draws come from the `rng` parameter, and their distribution is not modelled.
- `assertRange`'s `typeof v !== "number"` test: the model's values are typed, so only the range test remains (`Strength.InRange`).
- `numTeams` and `swapIterations` are integers in the model. A fractional value, which JavaScript would accept, is not modelled.
- Refine.TrySwap: the revert puts the two players back at the end of their teams, so the member order changes. Only the multiset of members and the views are restored, as in the source.
- Builder.BuildBalancedMixedTeams: with duplicate player ids it still returns K distinct teams. Completeness, exact sizes, exact aggregates and women targets are claimed only when ids are unique, because duplicates change how `malesLeft` and `pvById` behave.
- PlayerStats.TeammatesBounded: claimed only when no team lists a player id twice. A repeated id in one team is credited twice per match.
- The `males` array of `buildBalancedMixedTeams` is computed but never used by the code, so the model does not build it.
- `buildTeamsFromJsonString` (scripts/voley_teams.ts:382-385) is not part of this model: it depends on `JSON.parse`.
- The database reads of `convex/playerStats.ts` are not modelled:
  - fetching the teams, matches and players;
  - the name lookup `ctx.db.get`, which becomes the `names` map;
  - the session-id filtering of the fetches.

  The queries work on what the reads return.
- The mutation and queries around `roundRobin` in `convex/sessions.ts` are not part of this model: `createSessionWithTeams`, `listSessions` and `getSessionDetail` are database writes and reads.
- Scores are integers (`Option<int>`). Any other JavaScript value in a score field is not modelled.
