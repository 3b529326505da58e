# Ship / ship-part reconciliation, modelled in Dafny

This project models the in-memory reconciliation logic of the fleet manager
(`src/fleetManager.ts`). The manager collects a wallet's ships from several
sources, derives for each ship an identifying `symbol`, merges ships that
share a symbol, and compares them with the wallet's ship parts. A part
belongs to a ship symbol when its own symbol is that symbol followed by `"SP"`.
The comparison produces ships without parts, parts without ships and
matching (ship, part) pairs. The report deduplicates the matching pairs and
labels each one as surplus, deficit or equal.

Modules, in dependency order:

- `Basics`: `Option`, JavaScript truthiness of an optional string, `Math.abs`.
- `OrderedMap`: a JavaScript `Map` with string keys, as a map plus its keys in
  insertion order.
- `Records`: ship records (staked or generic), NFT records, `'amount' in ship ? amount : 1`,
  and the two grouping keys (ship symbol; part symbol without `"SP"`).
- `Grouping`: the groups of a sequence under an optional key, the distinct
  keys in first-seen order, and sums over a group.
- `SymbolDerivation`: `toExtendedShipInfo`, `toExtendedStakedShipInfo`,
  `toExtendedShips`. The regular expression `/\(([A-Z0-9]+)\)/` becomes a
  hand-written scanner, specified by a predicate for "a match at i..j".
- `Consolidation`: the symbol-consolidation loop of `analyzeFleet`.
- `Comparison`: `compareShipsAndParts`. The method mirrors the source's loops
  over `shipMap` and `partMap`, and the three result lists are tied to
  functions of the inputs.
- `ComparisonProperties`: what those lists contain, counted with multisets.
- `Report`: the dedup/status logic of `displayShipPartComparison`, which
  returns the labelled lines instead of printing them.
- `Fleet`: the wallet field mapping and item-type filters, the
  `analyzeFleet` pipeline after the fetches, and properties of comparing
  consolidated ships.

For each symbol present on both sides the comparison emits one pair per
(ship, part). It computes no size class and emits no pair for a symbol that
only parts carry (`src/fleetManager.ts:398-427`).

Modelling choices:

- A ship without an `amount` property has `amount == None`.
- The staked/generic distinction (`'faction' in ship`) is an explicit tag.
- The consolidation branch that sets an `amount` on an entry without one
  (lines 620-624) is modelled as written. It cannot fire, because every
  stored entry is created with an amount (line 615).
- A part whose symbol is exactly `"SP"` gets the group key `""`. No ship can
  carry that key, because `""` is falsy, so such parts always end up in
  `partsWithoutShips`.
- The dedup key `ship.name + "-" + part.name` is kept as written. Two
  different name pairs can therefore share a key when a name contains `"-"`.
- Wallet ships are built from NFTs without their symbol (lines 219-224), so
  they never get a symbol and never take part in the comparison.
  `Fleet.WalletShipsHaveNoSymbol` states this.

## Model

| member | source | states |
|---|---|---|
| Basics.Truthy | src/fleetManager.ts:333 | definition of JavaScript truthiness of an optional string: present and non-empty (also the tests at 356 and 606); no contract of its own |
| Basics.EndsWith | src/fleetManager.ts:361 | `s.endsWith(suffix)`: holds exactly when `s` is some prefix followed by `suffix` |
| Basics.Abs | src/fleetManager.ts:477-481 | `Math.abs`: the result is the argument or its negation, and is never negative |
| OrderedMap.OMap.Set | src/fleetManager.ts:343-344 | `map.set`: the value is stored under the key; a new key goes to the end of the iteration order, an existing key keeps its place |
| OrderedMap.OMap.Values | src/fleetManager.ts:629 | `Array.from(map.values())`: one value per key, in key insertion order |
| OrderedMap.SetValid | src/fleetManager.ts:343-344 | `set` keeps the keys distinct and in step with the mapped keys |
| Records.Count | src/fleetManager.ts:341 | `'amount' in ship ? ship.amount : 1` (also at 395, 404 and 611): the amount when present, 1 otherwise |
| Records.PartKey | src/fleetManager.ts:356-369 | a part gets a key exactly when its symbol is truthy and ends in `"SP"`, and then its symbol is the key followed by `"SP"` |
| Records.ShipKey | src/fleetManager.ts:333-340 | a ship is grouped exactly when its symbol is truthy, and then under that symbol |
| Records.PartKeyStripsSuffix | src/fleetManager.ts:356-369 | a part is grouped under `k` if and only if its symbol is `k + "SP"`; a symbol without the suffix is not grouped |
| Grouping.KeysOf | src/fleetManager.ts:343-345 | the map keys are distinct, and a key occurs exactly when some element carries it |
| Grouping.KeyHasMembers | src/fleetManager.ts:343-348 | a key exists if and only if its group is non-empty |
| Grouping.WithKeyCounts | src/fleetManager.ts:347-348 | a group holds every element of its key, as often as it occurs, and no other element |
| Grouping.GroupsConcatCounts | src/fleetManager.ts:390-397 | concatenating the groups of distinct keys yields exactly the elements carrying one of those keys, with multiplicity |
| Grouping.SumOfPermutation | src/fleetManager.ts:621 | a sum of counts does not depend on the order of the elements |
| Grouping.KeysOfOrder | src/fleetManager.ts:343-345 | the keys are listed in the order of their first occurrence: an earlier key first occurs strictly earlier |
| Grouping.FirstIndex | src/fleetManager.ts:613-616 | the first element that carries a key |
| SymbolDerivation.IsTokenChar | src/fleetManager.ts:50 | definition of the character class `[A-Z0-9]`; no contract of its own |
| SymbolDerivation.TokenMatch | src/fleetManager.ts:50 | definition of a match of `\(([A-Z0-9]+)\)` spanning `s[i..j+1]`: an opening bracket at `i`, a closing one at `j`, and at least one token character between them and nothing else, the capture being `s[i+1..j]`; `RunEnd`, `MatchClosesAtRunEnd`, `FirstMatchFrom` and `BracketToken` are stated against it; no contract of its own |
| SymbolDerivation.RunEnd | src/fleetManager.ts:50 | the end of a run of `[A-Z0-9]` characters: every character before it is in the class and the one at it is not |
| SymbolDerivation.MatchClosesAtRunEnd | src/fleetManager.ts:50 | a match of `\(([A-Z0-9]+)\)` starting at `i` can only close where the token run ends |
| SymbolDerivation.FirstMatchFrom | src/fleetManager.ts:50 | the leftmost match at or after a position; no match when it returns none |
| SymbolDerivation.BracketToken | src/fleetManager.ts:48-54 | the capture of the leftmost `(TOKEN)` in the name, or none exactly when the name has no match |
| SymbolDerivation.ToExtendedShipInfo | src/fleetManager.ts:36-69 | only the symbol changes; a truthy own symbol is kept; else a truthy `attributes.symbol` is used; else the first bracketed token of a truthy `attributes.name`; if the symbol changes, one of those fallbacks supplied it |
| SymbolDerivation.ToExtendedStakedShipInfo | src/fleetManager.ts:76-81 | a staked record is returned unchanged, symbol included |
| SymbolDerivation.ToExtendedShips | src/fleetManager.ts:88-98 | same length and order; each record differs from its input at most in the symbol; staked records are unchanged, generic ones go through `toExtendedShipInfo` |
| Consolidation.Representative | src/fleetManager.ts:613-623 | the entry kept for a symbol carries the symbol, and its amount is the symbol's total |
| Consolidation.ConsolidateBySymbol | src/fleetManager.ts:603-629 | one entry per distinct symbol, in first-seen order; each is a copy of the first ship with that symbol, whose amount is the sum of `amount`-or-1 over all ships with the symbol; ships without a symbol contribute nothing |
| Consolidation.SymbolsStep | src/fleetManager.ts:606-616 | a ship adds its symbol to the keys only when the symbol is truthy and new |
| Consolidation.RepresentativeStep | src/fleetManager.ts:617-621 | a later ship of a known symbol keeps the first ship as the representative and only raises its amount |
| Consolidation.RepresentativeNew | src/fleetManager.ts:613-616 | the first ship of a symbol becomes its representative, holding its own count |
| Consolidation.Absorb | src/fleetManager.ts:605-625 | one pass of the loop: a ship without a truthy symbol leaves the map unchanged; otherwise only its symbol's entry changes, and it becomes the stored entry (or a copy of the ship when the symbol is new) with the stored amount (or 0) plus the ship's count; a new symbol goes to the end of the key order |
| Consolidation.AbsorbKeepsMeaning | src/fleetManager.ts:605-625 | one loop pass keeps the map equal to the representatives of the ships seen so far |
| Consolidation.ConsolidatedMapRepresents | src/fleetManager.ts:603-626 | after the loop the map holds exactly one representative per seen symbol, in first-seen order |
| Consolidation.TotalsIgnoreOrder | src/fleetManager.ts:603-626 | reordering the input changes neither the set of symbols nor any total |
| Consolidation.ConsolidatedSymbolsAreUnique | src/fleetManager.ts:626-629 | in the consolidated list every symbol is carried by exactly one ship, its representative |
| Comparison.GroupBy | src/fleetManager.ts:331-378 | the grouping loop builds the fold of one grouping pass per element |
| Comparison.AddMember | src/fleetManager.ts:340-349 | one pass of a grouping loop (also 369-377 for parts): an element without a key leaves the map unchanged; otherwise only its key's group changes, gaining the element at the end and its count in the total, and a new key goes to the end of the key order |
| Comparison.AddMemberKeepsGroups | src/fleetManager.ts:343-349 | one grouping pass keeps the map equal to the groups and totals of the elements seen so far |
| Comparison.GroupsOfGroups | src/fleetManager.ts:331-378 | after the loop the keys are the distinct keys in first-seen order, and each entry holds a key's members in order and the sum of their counts |
| Comparison.GroupsAreNonEmpty | src/fleetManager.ts:341-349 | every group has at least one member, all carrying its key, and its `totalCount` is the sum of its members' counts (amount-or-1 for ships, quantity for parts) |
| Comparison.Unmatched | src/fleetManager.ts:391 | a key is listed if and only if it is among the keys and not among the other side's keys |
| Comparison.Pair | src/fleetManager.ts:403-413 | a pair records the ship, the part, `amount`-or-1, the part quantity and `partCount - shipCount` |
| Comparison.PushShipEntries | src/fleetManager.ts:394-397 | appends one `{ ship, count }` per ship of the group |
| Comparison.PushPartEntries | src/fleetManager.ts:423-425 | appends one `{ part, count }` per part of the group |
| Comparison.PushPairsWith | src/fleetManager.ts:404-414 | appends the pair of the ship with each part, in order |
| Comparison.PushCrossPairs | src/fleetManager.ts:403-415 | appends the pairs of every ship with every part, ship by ship |
| Comparison.SplitShipGroups | src/fleetManager.ts:390-417 | the loop over ship groups sends an unmatched symbol's ships to `shipsWithoutParts` and adds a matched symbol's cross product to `matchingPairs` |
| Comparison.PartsWithoutShipGroups | src/fleetManager.ts:420-427 | the loop over part groups sends the parts of a symbol without ships to `partsWithoutShips` |
| Comparison.ResultsFromGroups | src/fleetManager.ts:390-417 | the ship-side lists built from the maps are the lists defined over the input ships and parts |
| Comparison.ResultsFromGroups' | src/fleetManager.ts:420-427 | the part-side list built from the maps is the list defined over the input parts and ships |
| Comparison.ShipsWithoutParts | src/fleetManager.ts:390-397 | reference definition of `shipsWithoutParts` over the inputs: the ship entries of the groups of the ship symbols that no part key matches, in first-seen order; its contents are stated by `ComparisonProperties.ShipsWithoutPartsCounts` |
| Comparison.PartsWithoutShips | src/fleetManager.ts:420-427 | reference definition of `partsWithoutShips` over the inputs: the part entries of the groups of the part keys that no ship symbol matches, in first-seen order; its contents are stated by `ComparisonProperties.PartsWithoutShipsCounts` |
| Comparison.MatchingPairs | src/fleetManager.ts:398-415 | reference definition of `matchingPairs` over the inputs: the cross products of the groups of every ship symbol, in first-seen order; its contents are stated by `ComparisonProperties.MatchingPairsSound`, `MatchingPairsCounts` and `MatchingPairsPerKey` |
| Comparison.CompareShipsAndParts | src/fleetManager.ts:320-434 | the three result lists are the ships of unmatched symbols, the parts of unmatched keys, and the per-symbol cross products, each in first-seen order |
| ComparisonProperties.ShipsWithoutPartsCounts | src/fleetManager.ts:390-397 | a ship occurs in `shipsWithoutParts` as often as in the input, with count `amount`-or-1, exactly when it has a symbol that no part is grouped under; nothing else occurs there |
| ComparisonProperties.PartsWithoutShipsCounts | src/fleetManager.ts:420-427 | a part occurs in `partsWithoutShips` as often as in the input, with its quantity, exactly when it is grouped under a key that no ship carries; nothing else occurs there |
| ComparisonProperties.MatchingPairsSound | src/fleetManager.ts:398-414 | every matching pair joins an input ship and an input part of the same key, with shipCount `amount`-or-1, partCount the quantity and difference partCount − shipCount |
| ComparisonProperties.MatchingPairsCounts | src/fleetManager.ts:398-414 | a ship and a part of the same key form a pair exactly (occurrences of the ship) × (occurrences of the part) times; ships and parts of different keys never pair |
| ComparisonProperties.MatchingPairsPerKey | src/fleetManager.ts:398-414 | each symbol has exactly \|ships of the symbol\| × \|parts of the symbol\| matching pairs |
| ComparisonProperties.CrossPairsLength | src/fleetManager.ts:403-415 | the nested loops push \|ships\| × \|parts\| pairs |
| ComparisonProperties.CrossPairsCounts | src/fleetManager.ts:403-415 | each (ship, part) occurs in a cross product as often as the product of their occurrences |
| Report.DedupKey | src/fleetManager.ts:478 | the template `${ship.name}-${part.name}`: the ship name, then `-`, then the part name, and nothing else |
| Report.StatusOf | src/fleetManager.ts:486-490 | surplus if and only if the difference is positive, deficit (by its absolute value) if and only if it is negative, equal if and only if it is zero |
| Report.Keep | src/fleetManager.ts:478-482 | one pass of the dedup loop: the pair's key ends up stored and no other entry changes; the stored pair is the new pair or the previously stored one, its \|difference\| is at least both of theirs, and a stored pair is replaced only by one with a strictly larger \|difference\|; a new key goes to the end of the key order |
| Report.Dedup | src/fleetManager.ts:476-483 | the map after the dedup loop holds at most one key per pair, and the last pair's key is always present; `DedupKeys`, `DedupSound`, `DedupMax` and `DedupFirst` state the rest |
| Report.DedupKeys | src/fleetManager.ts:476-483 | the dedup map has one entry per distinct `ship.name-part.name` key, in first-seen order |
| Report.DedupSound | src/fleetManager.ts:477-483 | the pair kept for a key is an input pair with that key |
| Report.DedupMax | src/fleetManager.ts:480-482 | no input pair of a key has a larger \|difference\| than the kept pair |
| Report.DedupFirst | src/fleetManager.ts:480-482 | of the pairs tied at the largest \|difference\|, the first one is kept |
| Report.LineOf | src/fleetManager.ts:485-492 | the line reported for one kept pair: that pair with the status `StatusOf` gives its difference |
| Report.DedupPairs | src/fleetManager.ts:476-483 | the dedup loop builds the fold of the replace-if-strictly-larger pass |
| Report.LabelPairs | src/fleetManager.ts:485-492 | one line per kept pair, in `values()` order, labelled by `StatusOf` |
| Report.ReportPairs | src/fleetManager.ts:471-492 | the report lists the kept pairs, one per key in first-seen order, each with its status; no pairs give no lines |
| Fleet.ItemsOfType | src/fleetManager.ts:214 | the filter keeps only NFTs of the requested item type |
| Fleet.ItemsOfTypeCounts | src/fleetManager.ts:214 | the filter keeps every NFT of the type as often as it occurs, and no other |
| Fleet.WalletShip | src/fleetManager.ts:219-224 | a wallet ship keeps mint and name, takes the quantity as `amount` and the spec or `"Unknown"`, and has no symbol or attributes |
| Fleet.WalletParts | src/fleetManager.ts:246 | the wallet's ship parts: only NFTs of item type `"ship parts"`, none added (`ItemsOfTypeCounts` gives the multiplicities) |
| Fleet.WalletShips | src/fleetManager.ts:214-224 | one mapped ship per ship NFT, in order |
| Fleet.WalletShipsHaveNoSymbol | src/fleetManager.ts:219-224 | wallet ships have no symbol after `toExtendedShips`, so consolidation skips them |
| Fleet.ExtendedFleet | src/fleetManager.ts:597-600 | the ships of all four sources, extended: staked, fleet, starbase and wallet ships in that order, each block being `toExtendedShips` of its source |
| Fleet.AnalyzeFleet | src/fleetManager.ts:577-639 | the pipeline consolidates the extended ships of all sources, compares them with the wallet's ship parts and reports the deduplicated pairs |
| Fleet.ConsolidatedUnmatched | src/fleetManager.ts:603-639 | after consolidation, of the `shipsWithoutParts` entries whose ship carries a symbol, there is exactly one when no part is grouped under the symbol (the representative, counting the symbol's total) and none otherwise |
| Fleet.ConsolidatedPairsPerKey | src/fleetManager.ts:603-639 | after consolidation a symbol yields exactly one matching pair per part grouped under it |
| Fleet.ConsolidatedPairCounts | src/fleetManager.ts:603-639 | after consolidation every matching pair counts the symbol's total on the ship side |

## Left out

- The asynchronous fetch helpers (lines 105-312) are left out: they are network calls through a foreign library. Their results are the parameters of `Fleet.AnalyzeFleet`. The two wallet NFT fetches are taken to return the same list.
- The field mapping of the staked, fleet and starbase ships is done inside the foreign library, which is not part of this model. Those ships are inputs already in `Ship` form.
- `displayShipStatsByFaction` and `displaySageShipStats` are left out: they are console output, and they rely on a foreign faction lookup and on `parseInt`.
- All `console.log` / `JSON.stringify` output is left out; the report returns its lines instead. So are `main`, dotenv and the environment variable.
- The printing of `shipsWithoutParts` and `partsWithoutShips` in `displayShipPartComparison` (lines 448-467) is pure console output and is left out.
- The branch at lines 59-63 only logs, so it does not change the symbol; it is left out.
- `attributes.symbol` and `attributes.name` are modelled as optional strings. The source reads them from an untyped object, and for a name it checks `typeof name === 'string'`. A non-string value is not modelled.
- Numbers are unbounded integers. The source's amounts and quantities are JavaScript numbers; fractional values and floating-point rounding are not modelled.
- Only the bracket-token pattern is modelled, not general JavaScript regular expressions.
- The model is a sequential one: there is no concurrency in this logic.
