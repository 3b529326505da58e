/** What the three lists of `compareShipsAndParts` contain: every symbolled
    ship or grouped part lands in exactly one place, and the matching pairs are
    exactly the (ship, part) pairs of shared keys. */
module ComparisonProperties {
  import opened Basics
  import opened Records
  import opened Grouping
  import opened Comparison

  /* ---------- Ships without parts, parts without ships ---------- */

  /** `ShipEntries` holds one entry per ship, counting its `amount` or 1. */
  lemma {:induction false} ShipEntriesCounts(g: seq<Ship>, e: ShipEntry)
    ensures multiset(ShipEntries(g))[e] == if e.count == Count(e.ship) then multiset(g)[e.ship] else 0
  {
    if g != [] {
      var init := g[..|g| - 1];
      assert g == init + [g[|g| - 1]];
      ShipEntriesCounts(init, e);
    }
  }

  /** `PartEntries` holds one entry per part, counting its quantity. */
  lemma {:induction false} PartEntriesCounts(g: seq<Nft>, e: PartEntry)
    ensures multiset(PartEntries(g))[e] == if e.count == Quantity(e.part) then multiset(g)[e.part] else 0
  {
    if g != [] {
      var init := g[..|g| - 1];
      assert g == init + [g[|g| - 1]];
      PartEntriesCounts(init, e);
    }
  }

  /** A ship with a symbol that no part is grouped under appears in
      `shipsWithoutParts` once per occurrence, with its `amount` or 1; nothing
      else appears there. */
  lemma {:induction false} ShipsWithoutPartsCounts(ships: seq<Ship>, parts: seq<Nft>, e: ShipEntry)
    ensures multiset(ShipsWithoutParts(ships, parts))[e]
            == if e.count == Count(e.ship) && ShipKey(e.ship).Some?
                  && (forall j :: 0 <= j < |parts| ==> PartKey(parts[j]) != ShipKey(e.ship))
               then multiset(ships)[e.ship] else 0
  {
    var sk, pk := ShipKeys(ships), PartKeys(parts);
    assert Distinct(sk);
    UnmatchedDistinct(sk, pk);
    var g := GroupsConcat(ships, ShipKey, Unmatched(sk, pk));
    GroupsConcatCounts(ships, ShipKey, Unmatched(sk, pk), e.ship);
    ShipEntriesCounts(g, e);
    if e.ship in ships && ShipKey(e.ship).Some? {
      var i :| 0 <= i < |ships| && ships[i] == e.ship;
      assert ShipKey(e.ship).value in sk;
    }
  }

  /** A grouped part whose key no ship carries appears in `partsWithoutShips`
      once per occurrence, with its quantity; nothing else appears there. */
  lemma {:induction false} PartsWithoutShipsCounts(parts: seq<Nft>, ships: seq<Ship>, e: PartEntry)
    ensures multiset(PartsWithoutShips(parts, ships))[e]
            == if e.count == Quantity(e.part) && PartKey(e.part).Some?
                  && (forall i :: 0 <= i < |ships| ==> ShipKey(ships[i]) != PartKey(e.part))
               then multiset(parts)[e.part] else 0
  {
    var sk, pk := ShipKeys(ships), PartKeys(parts);
    assert Distinct(pk);
    UnmatchedDistinct(pk, sk);
    var g := GroupsConcat(parts, PartKey, Unmatched(pk, sk));
    GroupsConcatCounts(parts, PartKey, Unmatched(pk, sk), e.part);
    PartEntriesCounts(g, e);
    if e.part in parts && PartKey(e.part).Some? {
      var j :| 0 <= j < |parts| && parts[j] == e.part;
      assert PartKey(e.part).value in pk;
    }
  }

  /* ---------- Matching pairs: which pairs ---------- */

  /** A pair of `CrossPairs` is built by `Pair` from one of the ships and one
      of the parts. */
  lemma {:induction false} CrossPairsSound(g: seq<Ship>, ps: seq<Nft>, p: MatchPair)
    requires p in CrossPairs(g, ps)
    ensures p == Pair(p.ship, p.part) && p.ship in g && p.part in ps
  {
    var init, last := g[..|g| - 1], g[|g| - 1];
    if p in CrossPairs(init, ps) {
      CrossPairsSound(init, ps, p);
      assert init <= g;
    } else {
      PairsWithSound(last, ps, p);
    }
  }

  /** A pair of `PairsWith` is built by `Pair` from the ship and one of the parts. */
  lemma {:induction false} PairsWithSound(s: Ship, ps: seq<Nft>, p: MatchPair)
    requires p in PairsWith(s, ps)
    ensures p == Pair(s, p.part) && p.part in ps
  {
    var init := ps[..|ps| - 1];
    if p in PairsWith(s, init) {
      PairsWithSound(s, init, p);
      assert init <= ps;
    }
  }

  /** A pair of `PairsOver` joins a ship and a part that share a key. */
  lemma {:induction false} PairsOverSound(ships: seq<Ship>, parts: seq<Nft>, ks: seq<string>, p: MatchPair)
    requires p in PairsOver(ships, parts, ks)
    ensures p == Pair(p.ship, p.part) && p.ship in ships && p.part in parts
    ensures ShipKey(p.ship).Some? && ShipKey(p.ship) == PartKey(p.part)
  {
    var init, k := ks[..|ks| - 1], ks[|ks| - 1];
    if p in PairsOver(ships, parts, init) {
      PairsOverSound(ships, parts, init, p);
    } else {
      CrossPairsSound(WithKey(ships, ShipKey, k), WithKey(parts, PartKey, k), p);
      WithKeyMember(ships, ShipKey, k, p.ship);
      WithKeyMember(parts, PartKey, k, p.part);
    }
  }

  /** Every matching pair joins a ship and a part of the same key, with the
      ship's count, the part's quantity and their difference. */
  lemma {:induction false} MatchingPairsSound(ships: seq<Ship>, parts: seq<Nft>, p: MatchPair)
    requires p in MatchingPairs(ships, parts)
    ensures p.ship in ships && p.part in parts
    ensures ShipKey(p.ship).Some? && ShipKey(p.ship) == PartKey(p.part)
    ensures p.shipCount == Count(p.ship) && p.partCount == Quantity(p.part)
    ensures p.difference == p.partCount - p.shipCount
  {
    PairsOverSound(ships, parts, ShipKeys(ships), p);
  }

  /* ---------- Matching pairs: how often ---------- */

  lemma {:induction false} PairsWithCounts(s: Ship, ps: seq<Nft>, a: Ship, b: Nft)
    ensures multiset(PairsWith(s, ps))[Pair(a, b)] == if s == a then multiset(ps)[b] else 0
  {
    if ps != [] {
      var init := ps[..|ps| - 1];
      assert ps == init + [ps[|ps| - 1]];
      PairsWithCounts(s, init, a, b);
    }
  }

  /** Each (ship, part) occurs in the cross product as often as the ship
      occurs times as often as the part occurs. */
  lemma {:induction false} CrossPairsCounts(g: seq<Ship>, ps: seq<Nft>, a: Ship, b: Nft)
    ensures multiset(CrossPairs(g, ps))[Pair(a, b)] == multiset(g)[a] * multiset(ps)[b]
  {
    if g != [] {
      var init, last := g[..|g| - 1], g[|g| - 1];
      CrossPairsCounts(init, ps, a, b);
      PairsWithCounts(last, ps, a, b);
      CrossPairsStep(g, ps, Pair(a, b));
      ShipCountStep(g, a);
      MulStep(multiset(init)[a], multiset(ps)[b], if last == a then 1 else 0);
    }
  }

  lemma {:induction false} CrossPairsStep(g: seq<Ship>, ps: seq<Nft>, p: MatchPair)
    requires g != []
    ensures multiset(CrossPairs(g, ps))[p]
            == multiset(CrossPairs(g[..|g| - 1], ps))[p] + multiset(PairsWith(g[|g| - 1], ps))[p]
  {
  }

  lemma {:induction false} ShipCountStep(g: seq<Ship>, a: Ship)
    requires g != []
    ensures multiset(g)[a] == multiset(g[..|g| - 1])[a] + if g[|g| - 1] == a then 1 else 0
  {
    assert g == g[..|g| - 1] + [g[|g| - 1]];
  }

  /** Nonlinear facts kept out of the counting lemmas' contexts, where the
      solver finds them expensive. */
  lemma {:induction false} MulZero(n: int, m: int)
    requires n == 0 || m == 0
    ensures n * m == 0
  {
  }

  lemma {:induction false} MulStep(n: int, m: int, d: int)
    ensures n * m + d * m == (n + d) * m
  {
  }

  lemma {:induction false} PairsOverCounts(ships: seq<Ship>, parts: seq<Nft>, ks: seq<string>, a: Ship, b: Nft)
    requires Distinct(ks)
    ensures multiset(PairsOver(ships, parts, ks))[Pair(a, b)]
            == if ShipKey(a).Some? && ShipKey(a) == PartKey(b) && ShipKey(a).value in ks
               then multiset(ships)[a] * multiset(parts)[b] else 0
  {
    if ks != [] {
      var init, k := ks[..|ks| - 1], ks[|ks| - 1];
      DistinctSplit(ks);
      PairsOverCounts(ships, parts, init, a, b);
      var ws, wp := WithKey(ships, ShipKey, k), WithKey(parts, PartKey, k);
      CrossPairsCounts(ws, wp, a, b);
      PairsOverStep(ships, parts, ks, Pair(a, b));
      WithKeyCounts(ships, ShipKey, k, a);
      WithKeyCounts(parts, PartKey, k, b);
      assert ShipKey(a).Some? ==> (ShipKey(a).value in ks <==> ShipKey(a).value in init || ShipKey(a) == Some(k));
      var n, m := multiset(ws)[a], multiset(wp)[b];
      if ShipKey(a) == Some(k) && PartKey(b) == Some(k) {
      } else if ShipKey(a) == Some(k) {
        assert m == 0;
        MulZero(n, m);
      } else {
        assert n == 0;
        MulZero(n, m);
      }
    }
  }

  lemma {:induction false} PairsOverStep(ships: seq<Ship>, parts: seq<Nft>, ks: seq<string>, p: MatchPair)
    requires ks != []
    ensures multiset(PairsOver(ships, parts, ks))[p]
            == multiset(PairsOver(ships, parts, ks[..|ks| - 1]))[p]
               + multiset(CrossPairs(WithKey(ships, ShipKey, ks[|ks| - 1]), WithKey(parts, PartKey, ks[|ks| - 1])))[p]
  {
  }

  /** A ship and a part of the same key form a matching pair exactly as many
      times as the ship occurs times as many times as the part occurs; a ship
      and a part of different keys, or without a key, never do. */
  lemma {:induction false} MatchingPairsCounts(ships: seq<Ship>, parts: seq<Nft>, a: Ship, b: Nft)
    ensures multiset(MatchingPairs(ships, parts))[Pair(a, b)]
            == if ShipKey(a).Some? && ShipKey(a) == PartKey(b) then multiset(ships)[a] * multiset(parts)[b] else 0
  {
    var sk := ShipKeys(ships);
    assert Distinct(sk);
    PairsOverCounts(ships, parts, sk, a, b);
    if a in ships && ShipKey(a).Some? {
      var i :| 0 <= i < |ships| && ships[i] == a;
      assert ShipKey(a).value in sk;
    }
  }

  /* ---------- Matching pairs: how many per key ---------- */

  /** The key of a matching pair: its ship's symbol. */
  function PairKey(p: MatchPair): Option<string>
  {
    ShipKey(p.ship)
  }

  lemma {:induction false} CrossPairsLength(g: seq<Ship>, ps: seq<Nft>)
    ensures |CrossPairs(g, ps)| == |g| * |ps|
  {
    if g != [] {
      var init := g[..|g| - 1];
      CrossPairsLength(init, ps);
      assert |init| * |ps| + |ps| == |g| * |ps|;
    }
  }

  /** The pairs of one key's cross product all carry that key. */
  lemma {:induction false} CrossPairsOfKey(ships: seq<Ship>, parts: seq<Nft>, k': string, k: string)
    ensures WithKey(CrossPairs(WithKey(ships, ShipKey, k'), WithKey(parts, PartKey, k')), PairKey, k)
            == if k' == k then CrossPairs(WithKey(ships, ShipKey, k'), WithKey(parts, PartKey, k')) else []
  {
    var ws := WithKey(ships, ShipKey, k');
    var c := CrossPairs(ws, WithKey(parts, PartKey, k'));
    forall i | 0 <= i < |c| ensures PairKey(c[i]) == Some(k') {
      CrossPairsSound(ws, WithKey(parts, PartKey, k'), c[i]);
      WithKeyMember(ships, ShipKey, k', c[i].ship);
    }
    if k' == k {
      WithKeyAll(c, PairKey, k);
    } else {
      WithKeyNone(c, PairKey, k);
    }
  }

  lemma {:induction false} PairsOverPerKey(ships: seq<Ship>, parts: seq<Nft>, ks: seq<string>, k: string)
    requires Distinct(ks)
    ensures |WithKey(PairsOver(ships, parts, ks), PairKey, k)|
            == if k in ks then |WithKey(ships, ShipKey, k)| * |WithKey(parts, PartKey, k)| else 0
  {
    if ks != [] {
      var init, k' := ks[..|ks| - 1], ks[|ks| - 1];
      assert ks == init + [k'];
      DistinctSplit(ks);
      PairsOverPerKey(ships, parts, init, k);
      var c := CrossPairs(WithKey(ships, ShipKey, k'), WithKey(parts, PartKey, k'));
      WithKeyAppend(PairsOver(ships, parts, init), c, PairKey, k);
      CrossPairsOfKey(ships, parts, k', k);
      if k' == k {
        CrossPairsLength(WithKey(ships, ShipKey, k), WithKey(parts, PartKey, k));
      }
    }
  }

  /** For each symbol, `matchingPairs` holds exactly |ships| x |parts| pairs of
      that symbol; a symbol missing on either side contributes none. */
  lemma {:induction false} MatchingPairsPerKey(ships: seq<Ship>, parts: seq<Nft>, k: string)
    ensures |WithKey(MatchingPairs(ships, parts), PairKey, k)|
            == |WithKey(ships, ShipKey, k)| * |WithKey(parts, PartKey, k)|
  {
    var sk := ShipKeys(ships);
    assert Distinct(sk);
    PairsOverPerKey(ships, parts, sk, k);
    KeyHasMembers(ships, ShipKey, k);
  }
}
