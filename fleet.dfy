/** `analyzeFleet`: the ships fetched from every source are extended with a
    symbol, consolidated by symbol and compared with the ship parts of the
    wallet, and the matching pairs are reported. The fetches themselves are
    inputs here; only the field mapping that turns wallet NFTs into ship
    records, and the item-type filters, are modelled. */
module Fleet {
  import opened Basics
  import opened Records
  import opened Grouping
  import opened SymbolDerivation
  import opened Consolidation
  import opened Comparison
  import opened ComparisonProperties
  import opened Report

  /* ---------- Wallet inventory ---------- */

  /** `nfts.filter(nft => nft.itemType === t)` */
  function ItemsOfType(nfts: seq<Nft>, t: string): (r: seq<Nft>)
    ensures |r| <= |nfts|
    ensures forall i :: 0 <= i < |r| ==> r[i].itemType == t
  {
    if nfts == [] then []
    else ItemsOfType(nfts[..|nfts| - 1], t) + if nfts[|nfts| - 1].itemType == t then [nfts[|nfts| - 1]] else []
  }

  /** The filter keeps every NFT of the type, as often as it occurs, and no other. */
  lemma {:induction false} ItemsOfTypeCounts(nfts: seq<Nft>, t: string, x: Nft)
    ensures multiset(ItemsOfType(nfts, t))[x] == if x.itemType == t then multiset(nfts)[x] else 0
  {
    if nfts != [] {
      var init := nfts[..|nfts| - 1];
      assert nfts == init + [nfts[|nfts| - 1]];
      ItemsOfTypeCounts(init, t, x);
    }
  }

  /** The `ShipInfo` built from a wallet NFT: mint, name, the quantity as
      `amount`, and the spec or "Unknown" when the spec is falsy. Nothing else
      is carried over, in particular not the symbol. */
  function WalletShip(n: Nft): (s: Ship)
    ensures s.origin == Generic && s.mint == n.mint && s.name == n.name
    ensures s.amount == Some(n.quantity) && Count(s) == n.quantity
    ensures s.symbol.None? && s.attributes.None?
    ensures Truthy(n.spec) ==> s.spec == n.spec
    ensures !Truthy(n.spec) ==> s.spec == Some("Unknown")
  {
    Ship(Generic, n.mint, n.name, Some(n.quantity), None, None,
         Some(if Truthy(n.spec) then n.spec.value else "Unknown"))
  }

  /** `getShipsInWallet` on the fetched NFTs: the ship NFTs, mapped. */
  function WalletShips(nfts: seq<Nft>): (r: seq<Ship>)
    ensures |r| == |ItemsOfType(nfts, "ship")|
    ensures forall i :: 0 <= i < |r| ==> r[i] == WalletShip(ItemsOfType(nfts, "ship")[i])
  {
    var ships := ItemsOfType(nfts, "ship");
    seq(|ships|, i requires 0 <= i < |ships| => WalletShip(ships[i]))
  }

  /** `getShipPartsInWallet` on the fetched NFTs. */
  function WalletParts(nfts: seq<Nft>): (r: seq<Nft>)
    ensures |r| <= |nfts|
    ensures forall i :: 0 <= i < |r| ==> r[i].itemType == "ship parts"
  {
    ItemsOfType(nfts, "ship parts")
  }

  /** A ship taken from the wallet keeps no symbol through `toExtendedShips`,
      so consolidation skips it and it never reaches the comparison. */
  lemma {:induction false} WalletShipsHaveNoSymbol(nfts: seq<Nft>, i: nat)
    requires i < |WalletShips(nfts)|
    ensures ShipKey(ToExtendedShips(WalletShips(nfts))[i]).None?
  {
  }

  /* ---------- The pipeline ---------- */

  /** `[...stakedShips, ...sageFleetShips, ...starbaseShips, ...walletShips]`
      after `toExtendedShips`. */
  function ExtendedFleet(staked: seq<Ship>, fleets: seq<Ship>, starbases: seq<Ship>, walletNfts: seq<Nft>): (r: seq<Ship>)
    ensures var wallet := WalletShips(walletNfts);
            var a, b, c := |staked|, |staked| + |fleets|, |staked| + |fleets| + |starbases|;
            && |r| == c + |wallet|
            && r[..a] == ToExtendedShips(staked)
            && r[a..b] == ToExtendedShips(fleets)
            && r[b..c] == ToExtendedShips(starbases)
            && r[c..] == ToExtendedShips(wallet)
  {
    ToExtendedShips(staked + fleets + starbases + WalletShips(walletNfts))
  }

  /** `analyzeFleet` after the fetches: `staked`, `fleets` and `starbases` are
      what the staking, fleet and starbase lookups returned, `walletNfts` what
      the wallet NFT lookup returned (it is fetched once for ships and once for
      parts; both fetches are taken to agree). */
  method AnalyzeFleet(staked: seq<Ship>, fleets: seq<Ship>, starbases: seq<Ship>, walletNfts: seq<Nft>)
    returns (consolidated: seq<Ship>, comparison: ComparisonResult, lines: seq<ReportLine>)
    ensures var ships := ExtendedFleet(staked, fleets, starbases, walletNfts);
            && |consolidated| == |Symbols(ships)|
            && forall i :: 0 <= i < |consolidated| ==> consolidated[i] == Representative(ships, Symbols(ships)[i])
    ensures comparison.shipsWithoutParts == ShipsWithoutParts(consolidated, WalletParts(walletNfts))
    ensures comparison.partsWithoutShips == PartsWithoutShips(WalletParts(walletNfts), consolidated)
    ensures comparison.matchingPairs == MatchingPairs(consolidated, WalletParts(walletNfts))
    ensures Dedup(comparison.matchingPairs).Valid() && |lines| == |Dedup(comparison.matchingPairs).keys|
    ensures forall t :: 0 <= t < |lines| ==>
              lines[t] == LineOf(Dedup(comparison.matchingPairs).entries[Dedup(comparison.matchingPairs).keys[t]])
  {
    var shipParts := WalletParts(walletNfts);
    var rawShipsArray := staked + fleets + starbases + WalletShips(walletNfts);
    var extendedShips := ToExtendedShips(rawShipsArray);
    consolidated := ConsolidateBySymbol(extendedShips);
    comparison := CompareShipsAndParts(consolidated, shipParts);
    lines := ReportPairs(comparison.matchingPairs);
  }

  /** Consolidated ships, compared: of the `shipsWithoutParts` entries whose
      ship carries symbol `k`, there is exactly one when no part is grouped
      under `k` (the representative, counting the symbol's total) and none
      otherwise. */
  lemma {:induction false} ConsolidatedUnmatched(ships: seq<Ship>, consolidated: seq<Ship>, parts: seq<Nft>, k: string, e: ShipEntry)
    requires |consolidated| == |Symbols(ships)|
    requires forall i :: 0 <= i < |consolidated| ==> consolidated[i] == Representative(ships, Symbols(ships)[i])
    requires k in Symbols(ships)
    requires ShipKey(e.ship) == Some(k)
    ensures multiset(ShipsWithoutParts(consolidated, parts))[e]
            == if e == ShipEntry(Representative(ships, k), SymbolTotal(ships, k))
                  && (forall j :: 0 <= j < |parts| ==> PartKey(parts[j]) != Some(k))
               then 1 else 0
  {
    var rep := Representative(ships, k);
    ConsolidatedSymbolsAreUnique(ships, consolidated);
    WithKeyCounts(consolidated, ShipKey, k, e.ship);
    ShipsWithoutPartsCounts(consolidated, parts, e);
    assert multiset([rep])[e.ship] == if e.ship == rep then 1 else 0;
  }

  /** Consolidated ships, compared: a symbol gets exactly one matching pair
      per part grouped under it. */
  lemma {:induction false} ConsolidatedPairsPerKey(ships: seq<Ship>, consolidated: seq<Ship>, parts: seq<Nft>, k: string)
    requires |consolidated| == |Symbols(ships)|
    requires forall i :: 0 <= i < |consolidated| ==> consolidated[i] == Representative(ships, Symbols(ships)[i])
    requires k in Symbols(ships)
    ensures |WithKey(MatchingPairs(consolidated, parts), PairKey, k)| == |WithKey(parts, PartKey, k)|
  {
    ConsolidatedSymbolsAreUnique(ships, consolidated);
    SinglePairsPerKey(consolidated, parts, k, Representative(ships, k));
  }

  lemma {:induction false} SinglePairsPerKey(consolidated: seq<Ship>, parts: seq<Nft>, k: string, rep: Ship)
    requires WithKey(consolidated, ShipKey, k) == [rep]
    ensures |WithKey(MatchingPairs(consolidated, parts), PairKey, k)| == |WithKey(parts, PartKey, k)|
  {
    MatchingPairsPerKey(consolidated, parts, k);
    assert 1 * |WithKey(parts, PartKey, k)| == |WithKey(parts, PartKey, k)|;
  }

  /** Consolidated ships, compared: every matching pair of a symbol counts
      the symbol's total on the ship side. */
  lemma {:induction false} ConsolidatedPairCounts(ships: seq<Ship>, consolidated: seq<Ship>, parts: seq<Nft>, p: MatchPair)
    requires |consolidated| == |Symbols(ships)|
    requires forall i :: 0 <= i < |consolidated| ==> consolidated[i] == Representative(ships, Symbols(ships)[i])
    requires p in MatchingPairs(consolidated, parts)
    ensures PairKey(p).Some? && PairKey(p).value in Symbols(ships)
    ensures p.shipCount == SymbolTotal(ships, PairKey(p).value)
    ensures p.difference == p.partCount - SymbolTotal(ships, PairKey(p).value)
  {
    MatchingPairsSound(consolidated, parts, p);
    var k := PairKey(p).value;
    ConsolidatedSymbolsAreUnique(ships, consolidated);
    WithKeyCounts(consolidated, ShipKey, k, p.ship);
    assert p.ship in WithKey(consolidated, ShipKey, k);
  }
}
