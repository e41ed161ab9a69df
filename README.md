# Airdrop reward aggregation, modelled in Dafny

This project models the aggregation pass of the v3 airdrop script. The script reads eight CSV files:

- two rounds ("partitions" part1 and part2);
- four pools each (btcb, busd, eth, usdt).

From them it builds two tables keyed by account address:

- **forSC**, the on-chain table. Each address has a running token amount (`cakeAmountInWei`) and one eligibility flag per partition (`nft1`, `nft2`).
- **forFE**, the display table. Each address has eight tier slots, `part1`/`part2` × `btcb`/`busd`/`eth`/`usdt`, each null or one of `t1`..`t4`.

A row's tier comes from its `tvl_tier` label: the first of the markers `tier1`, `tier2`, `tier3`, `tier4` that the label contains. Three conditions abort the whole run:

- an invalid address;
- a label with no marker;
- a second row for the same address in the same file.

After all rows, the script sums the forSC amounts into the total it reports.

Modules:

- `Domain` (domain.dfy): rows, table entries, tiers, errors.
- `Tiers` (tiers.dfy): substring search and the tier classifier.
- `Aggregation` (aggregation.dfy): the effect of one row on the two tables (`ApplyRow`) and of a sequence of rows (`Fold`, stopping at the first error). It also gives the order in which the script visits the files (`Schedule`).
- `Totals` (totals.dfy): the total, as an order-free sum over the map and as the loop that computes it.
- `Ledger` (ledger.dfy): the script as imperative code. `class Ledger` holds the two maps, and its methods update them in place row by row, file by file, partition by partition. Each method is proved equal to the functional definition.
- `Properties` (properties.dfy): what a pass over any rows guarantees.
- `RunFacts` (run_facts.dfy): the same guarantees restated over the eight input files of a whole run.

Ordering follows the code, which updates the tables before it finishes validating a row:

- The address check comes first and touches nothing.
- Then the amount and flag are credited to forSC.
- Then an all-null forFE entry is created if the address has none.
- Only then are the duplicate check and tier classification done.

So a row that fails as a duplicate, or for lack of a marker, leaves its forSC credit and new forFE entry in memory. `Progress` keeps those partial tables. They never reach the output: any error aborts before the tables are written (`RunResult`).

## Model

| member | source | states |
|---|---|---|
| Domain.Slots.Set | index.ts:107-108 | writing category c of one partition's slots fills that slot with the tier and leaves the other three unchanged |
| Domain.FEEntry.Set | index.ts:107-108 | writing slot [p][c] of a display entry fills it and leaves the other seven slots unchanged |
| Tiers.IncludesIsContains | index.ts:66 | the left-to-right scan modelling `includes` answers true exactly when the marker occurs at some position of the label |
| Tiers.ParseTier | index.ts:65-79 | success means the label contains the returned tier's marker and no marker that is tried earlier; failure happens exactly when no marker is present, and the error is InvalidTier with the label |
| Tiers.FirstMarked | index.ts:65-79 | reference first-match scan over an ordered marker list: a result is in the list, its marker is present and no marker listed before it is present; no result exactly when no listed marker is present |
| Tiers.ParseTierIsFirstMatch | index.ts:65-79 | the if-chain of the classifier equals the first-match scan of the list tier1, tier2, tier3, tier4, for every label |
| Tiers.Tier1Wins | index.ts:66-68 | any label containing "tier1" is tier 1, whatever other markers it carries |
| Tiers.SeveralMarkersExample | index.ts:69-74 | "tier3-tier2" is tier 2: the order in which markers are tried decides, not where they occur in the label |
| Tiers.NoMarkerExample | index.ts:78 | a label with no marker ("gold") is rejected with InvalidTier |
| Aggregation.Credit | index.ts:91-99 | the user's amount becomes the prior amount (0 if absent) plus the row's amount; the row's partition flag is set and the other flag is kept (false for a new address); the keys grow by the user only and every other entry is unchanged |
| Aggregation.WithEntry | index.ts:101-103 | a new address receives the all-null template; an address already present keeps its entry; nothing else changes |
| Aggregation.ApplyRow | index.ts:85-108 | an invalid address aborts with both tables untouched; once the address is valid, forSC is credited even if the row then fails; a filled slot aborts with DuplicateUser; an empty slot with a marker-less label aborts with InvalidTier(label), keeping the forSC credit and the new display entry; the row succeeds exactly when the address is valid, the slot is empty and the label has a marker, and then the slot holds the parsed tier |
| Aggregation.ApplyRowEntries | index.ts:101-103 | the display table gains at most the row's address, and every other address keeps its entry (the template is copied per address, never shared) |
| Aggregation.ApplyRowFrame | index.ts:104-108 | a row writes no slot other than its own [partition][category] slot of its own address, and a failing row writes no slot at all |
| Aggregation.FoldAppend | index.ts:81-141 | processing rows xs then ys equals processing xs and, unless that failed, processing ys from the tables xs left |
| Aggregation.FoldFailed | index.ts:87-88 | after the first error, further rows change nothing: the throw ends the run |
| Totals.TotalOfRemove | index.ts:143-145 | the sum of forSC amounts does not depend on the order in which entries are visited |
| Totals.CreditTotal | index.ts:93-96 | crediting an amount to one address raises the total by exactly that amount |
| Totals.TotalCakeAmount | index.ts:143-145 | the reduce loop returns the sum of cakeAmountInWei over all forSC entries |
| Ledger.Ledger.constructor | index.ts:20-39 | both tables start empty |
| Ledger.Ledger.ProcessRow | index.ts:84-109 | the in-place per-row callback leaves exactly the tables and error that ApplyRow defines |
| Ledger.Ledger.ProcessFile | index.ts:84-109 | the forEach over one file's rows leaves exactly the tables and first error of folding ApplyRow over that file |
| Ledger.Ledger.ProcessPartition | index.ts:81-110 | the loop over the four files of a partition, in the order btcb, busd, eth, usdt, equals the fold over their rows file after file |
| Ledger.Run | index.ts:81-145 | the script yields the first error of the schedule (partition 1 before partition 2), or the two tables after every row together with their total |
| RunFacts.FileInSchedule | index.ts:81-84 | row j of file (p, c) is visited at a fixed position: after every row of the files before it |
| Properties.FoldSlots | index.ts:101-108 | after a successful pass every row's slot holds that row's tier, every slot no row is for is unchanged, no two rows share a slot, and every row was valid |
| Properties.SlotOfRow | index.ts:107-108 | after a successful pass, the slot of the row at any position holds that row's parsed tier |
| Properties.FoldSucceedsIff | index.ts:87-108 | a pass succeeds exactly when every address is valid, every label has a marker, no two rows share an (address, partition, category) slot and no row meets an already-filled slot |
| Properties.ApplyRowExtends | index.ts:91-108 | any row, failing or not, keeps every key, never clears a flag and never changes a filled slot |
| Properties.FoldExtends | index.ts:81-141 | any prefix of the run keeps keys, flags only go from false to true, and each slot is written at most once |
| Properties.DuplicateAborts | index.ts:104-106 | a valid row for a slot that an earlier row already filled aborts with DuplicateUser for that address, category and partition |
| Properties.FoldAccounts | index.ts:91-99 | after a successful pass the forSC keys are the old ones plus the rows' addresses; each amount is the old one plus the sum of that address's row amounts; a partition flag is set exactly when it was set before or a row of that partition names the address |
| Properties.FoldDisplayKeys | index.ts:101-103 | after a successful pass forFE has an entry exactly for the old addresses and those of the rows |
| Properties.FoldTotal | index.ts:143-145 | after a successful pass the total has grown by the sum of all row amounts |
| RunFacts.RunSucceedsIff | index.ts:81-141 | a run succeeds exactly when every row is valid with a marker and no address appears twice in the same file; otherwise there is no output |
| RunFacts.InvalidRowAborts | index.ts:87-89 | one row anywhere with an invalid address or with no tier marker makes the run fail |
| RunFacts.DuplicateInFileAborts | index.ts:104-106 | two rows for the same address in one file make the run fail |
| RunFacts.RunKeys | index.ts:93-103 | after a successful run both tables have an entry exactly for the addresses that some file names |
| RunFacts.RunAmount | index.ts:91-96 | after a successful run an address's amount is the sum of the amounts of its rows across all eight files |
| RunFacts.RunTotal | index.ts:143-145 | the reported total equals the sum of the amounts of all rows, as well as the sum of the forSC amounts |
| RunFacts.RunEligibility | index.ts:97-98 | after a successful run the flag of partition p is true exactly when some file of partition p names the address |
| RunFacts.RunSlotsFilled | index.ts:107-108 | after a successful run, slot [p][c] of an address named in file (p, c) holds the tier of that row |
| RunFacts.RunSlotsEmpty | index.ts:44-57 | after a successful run, slot [p][c] of an address that file (p, c) does not name is null |
| RunFacts.Part1OnlyAddress | index.ts:93-103 | an address named only in partition-1 files ends with nft1 true, nft2 false and all four part2 slots null |

## Left out

- getCakeAmount (index.ts:59-63) is not modelled. It parses the prize as a float, divides by the price constant and scales with parseEther. Each row carries the resulting integer amount instead. The amount is an `int`, because a negative prize yields a negative amount. Failures of that conversion (a prize string that parseEther rejects) are not modelled.
- Storing cakeAmountInWei as a decimal string (`BigInt(...).toString()`) is modelled as an unbounded integer. The string round trip is exact, so nothing is lost.
- Reading the CSV files (file paths, `Bun.file`, `csvtojson`) is left out. Each file is given as the sequence of its rows, in file order. Missing or unreadable files are not modelled.
- Rows with a missing column are not modelled: every row has string fields.
- `isAddress` is a parameter (`valid`) of the model, not a definition, because address checksum rules live in an external library.
- Writing the two JSON files and the console output, including the floating-point "total in usd", are left out. The total itself is modelled.
- The JSON deep copy of the template (index.ts:102) is implicit, because entries are values: no two addresses can share an entry.
- JavaScript object-key quirks are not modelled. Addresses are plain string keys, so prototype-named keys such as `__proto__` get no special treatment.
