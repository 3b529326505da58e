/** `compareShipsAndParts`: ships and parts are grouped by symbol (a part under
    its symbol without the trailing "SP"), and the groups are split into ships
    without parts, parts without ships, and one matching pair per (ship, part)
    of every symbol present on both sides. */
module Comparison {
  import opened Basics
  import opened Records
  import opened Grouping
  import opened OrderedMap

  /** The value a grouping map holds for a key: `{ ships, totalCount }` for
      ships, `{ parts, totalCount }` for parts. */
  datatype Group<T> = Group(members: seq<T>, totalCount: int)

  /** An entry of `shipsWithoutParts`. */
  datatype ShipEntry = ShipEntry(ship: Ship, count: int)

  /** An entry of `partsWithoutShips`. */
  datatype PartEntry = PartEntry(part: Nft, count: int)

  /** An entry of `matchingPairs`. */
  datatype MatchPair = MatchPair(ship: Ship, part: Nft, shipCount: int, partCount: int, difference: int)

  /** The object `compareShipsAndParts` returns. */
  datatype ComparisonResult = ComparisonResult(
    shipsWithoutParts: seq<ShipEntry>,
    partsWithoutShips: seq<PartEntry>,
    matchingPairs: seq<MatchPair>)

  /* ---------- Grouping into a map ---------- */

  /** One pass of a grouping loop: an element without a key is skipped, a new key
      gets an empty group first, and the element is appended to its group while
      its count is added to the group's total. */
  function AddMember<T>(m: OMap<Group<T>>, x: T, key: T -> Option<string>, count: T -> int): (r: OMap<Group<T>>)
    ensures key(x).None? ==> r == m
    ensures key(x).Some? ==>
              var k := key(x).value;
              && r.keys == (if k in m.entries then m.keys else m.keys + [k])
              && k in r.entries
              && r.entries == m.entries[k := r.entries[k]]
              && r.entries[k].members == (if k in m.entries then m.entries[k].members else []) + [x]
              && r.entries[k].totalCount == (if k in m.entries then m.entries[k].totalCount else 0) + count(x)
  {
    match key(x)
    case None => m
    case Some(k) =>
      var g := if m.Has(k) then m.entries[k] else Group([], 0);
      m.Set(k, Group(g.members + [x], g.totalCount + count(x)))
  }

  /** The map a grouping loop holds after walking `xs`. */
  function GroupsOf<T>(xs: seq<T>, key: T -> Option<string>, count: T -> int): OMap<Group<T>>
  {
    if xs == [] then Empty() else AddMember(GroupsOf(xs[..|xs| - 1], key, count), xs[|xs| - 1], key, count)
  }

  /** `m` groups `xs`: one key per distinct key of `xs` in first-seen order, and
      under each key the elements carrying it, in order, with the sum of their counts. */
  ghost predicate Groups<T>(m: OMap<Group<T>>, xs: seq<T>, key: T -> Option<string>, count: T -> int)
  {
    && m.keys == KeysOf(xs, key)
    && (forall k :: k in m.entries <==> k in KeysOf(xs, key))
    && (forall k :: k in m.entries ==>
          m.entries[k] == Group(WithKey(xs, key, k), SumOf(WithKey(xs, key, k), count)))
  }

  /** One grouping pass keeps the meaning of the map. */
  lemma {:induction false} AddMemberKeepsGroups<T>(m: OMap<Group<T>>, a: seq<T>, x: T, key: T -> Option<string>, count: T -> int)
    requires Groups(m, a, key, count)
    ensures Groups(AddMember(m, x, key, count), a + [x], key, count)
  {
    match key(x)
    case None => AddUnkeyed(m, a, x, key, count);
    case Some(k) =>
      if k in m.entries {
        AddToGroup(m, a, x, key, count, k);
      } else {
        AddNewGroup(m, a, x, key, count, k);
      }
  }

  lemma {:induction false} AddUnkeyed<T>(m: OMap<Group<T>>, a: seq<T>, x: T, key: T -> Option<string>, count: T -> int)
    requires Groups(m, a, key, count) && key(x).None?
    ensures Groups(AddMember(m, x, key, count), a + [x], key, count)
  {
    KeysStep(a, x, key);
    forall k | k in m.entries
      ensures m.entries[k] == Group(WithKey(a + [x], key, k), SumOf(WithKey(a + [x], key, k), count))
    {
      GroupStep(a, x, key, count, k);
    }
  }

  lemma {:induction false} AddToGroup<T>(m: OMap<Group<T>>, a: seq<T>, x: T, key: T -> Option<string>, count: T -> int, k: string)
    requires Groups(m, a, key, count) && key(x) == Some(k) && k in m.entries
    ensures Groups(AddMember(m, x, key, count), a + [x], key, count)
  {
    AddMemberShape(m, x, key, count, k);
    assert k in KeysOf(a, key);
    KeysStep(a, x, key);
    GroupedEntries(m, a, x, key, count, k);
  }

  lemma {:induction false} AddMemberShape<T>(m: OMap<Group<T>>, x: T, key: T -> Option<string>, count: T -> int, k: string)
    requires key(x) == Some(k) && k in m.entries
    ensures AddMember(m, x, key, count) == m.Set(k, Group(m.entries[k].members + [x], m.entries[k].totalCount + count(x)))
    ensures AddMember(m, x, key, count).keys == m.keys
    ensures AddMember(m, x, key, count).entries.Keys == m.entries.Keys
  {
  }

  /** After appending `x` to its group `k`, every entry is the group of `a + [x]`. */
  lemma {:induction false} GroupedEntries<T>(m: OMap<Group<T>>, a: seq<T>, x: T, key: T -> Option<string>, count: T -> int, k: string)
    requires Groups(m, a, key, count) && key(x) == Some(k) && k in m.entries
    ensures var r := m.entries[k := Group(m.entries[k].members + [x], m.entries[k].totalCount + count(x))];
            forall k' :: k' in r ==> r[k'] == Group(WithKey(a + [x], key, k'), SumOf(WithKey(a + [x], key, k'), count))
  {
    var r := m.entries[k := Group(m.entries[k].members + [x], m.entries[k].totalCount + count(x))];
    forall k' | k' in r
      ensures r[k'] == Group(WithKey(a + [x], key, k'), SumOf(WithKey(a + [x], key, k'), count))
    {
      GroupStep(a, x, key, count, k');
    }
  }

  lemma {:induction false} AddNewGroup<T>(m: OMap<Group<T>>, a: seq<T>, x: T, key: T -> Option<string>, count: T -> int, k: string)
    requires Groups(m, a, key, count) && key(x) == Some(k) && k !in m.entries
    ensures Groups(AddMember(m, x, key, count), a + [x], key, count)
  {
    var r := m.Set(k, Group([x], count(x)));
    var none: seq<T> := [];
    assert none + [x] == [x];
    assert AddMember(m, x, key, count) == r;
    KeysStep(a, x, key);
    KeyHasMembers(a, key, k);
    assert WithKey(a, key, k) == [];
    assert SumOf([x], count) == count(x) by { assert [x][..0] == []; }
    forall k' | k' in r.entries
      ensures r.entries[k'] == Group(WithKey(a + [x], key, k'), SumOf(WithKey(a + [x], key, k'), count))
    {
      GroupStep(a, x, key, count, k');
    }
    forall k' ensures k' in r.entries <==> k' in KeysOf(a + [x], key) {
    }
  }

  /** The grouping loop builds exactly the groups of its input. */
  lemma {:induction false} GroupsOfGroups<T>(xs: seq<T>, key: T -> Option<string>, count: T -> int)
    ensures Groups(GroupsOf(xs, key, count), xs, key, count)
  {
    if xs != [] {
      var init := xs[..|xs| - 1];
      assert xs == init + [xs[|xs| - 1]];
      GroupsOfGroups(init, key, count);
      AddMemberKeepsGroups(GroupsOf(init, key, count), init, xs[|xs| - 1], key, count);
    }
  }

  /** Every group of a grouping has at least one member, and its total is
      the sum of its members' counts. */
  lemma {:induction false} GroupsAreNonEmpty<T>(m: OMap<Group<T>>, xs: seq<T>, key: T -> Option<string>, count: T -> int, k: string)
    requires Groups(m, xs, key, count) && k in m.entries
    ensures |m.entries[k].members| > 0
    ensures m.entries[k].totalCount == SumOf(m.entries[k].members, count)
    ensures forall i :: 0 <= i < |m.entries[k].members| ==> key(m.entries[k].members[i]) == Some(k)
  {
    KeyHasMembers(xs, key, k);
  }

  /** The loop of `compareShipsAndParts` that fills `shipMap` (or `partMap`):
      elements whose key is `None` are skipped. */
  method GroupBy<T>(xs: seq<T>, key: T -> Option<string>, count: T -> int) returns (groups: OMap<Group<T>>)
    ensures groups == GroupsOf(xs, key, count)
  {
    groups := Empty();
    var i := 0;
    while i < |xs|
      invariant 0 <= i <= |xs|
      invariant groups == GroupsOf(xs[..i], key, count)
    {
      var x := xs[i];
      ghost var next := AddMember(groups, x, key, count);
      match key(x) {
        case None =>
        case Some(k) =>
          ghost var before := groups;
          if !groups.Has(k) {
            groups := groups.Set(k, Group([], 0));
            var entry := groups.entries[k];
            groups := groups.Set(k, Group(entry.members + [x], entry.totalCount + count(x)));
            assert entry.members + [x] == [x];
            SetTwice(before, k, Group([], 0), Group([x], count(x)));
          } else {
            var entry := groups.entries[k];
            groups := groups.Set(k, Group(entry.members + [x], entry.totalCount + count(x)));
          }
      }
      assert groups == next;
      assert xs[..i + 1][..i] == xs[..i];
      i := i + 1;
    }
    assert xs[..i] == xs;
  }

  /* ---------- The result lists, as functions of the inputs ---------- */

  /** The distinct symbols of the ships. */
  function ShipKeys(ships: seq<Ship>): seq<string>
  {
    KeysOf(ships, ShipKey)
  }

  /** The distinct group keys of the parts, that is their symbols without "SP". */
  function PartKeys(parts: seq<Nft>): seq<string>
  {
    KeysOf(parts, PartKey)
  }

  /** The keys of `ks` that are not among `other`, in the order of `ks`. */
  function Unmatched(ks: seq<string>, other: seq<string>): (r: seq<string>)
    ensures forall k :: k in r <==> k in ks && k !in other
  {
    if ks == [] then []
    else Unmatched(ks[..|ks| - 1], other) + if ks[|ks| - 1] in other then [] else [ks[|ks| - 1]]
  }

  lemma {:induction false} UnmatchedDistinct(ks: seq<string>, other: seq<string>)
    requires Distinct(ks)
    ensures Distinct(Unmatched(ks, other))
  {
    if ks != [] {
      var init := ks[..|ks| - 1];
      assert Distinct(init) by {
        forall i, j | 0 <= i < j < |init| ensures init[i] != init[j] {
          assert init[i] == ks[i] && init[j] == ks[j];
        }
      }
      UnmatchedDistinct(init, other);
      assert ks[|ks| - 1] !in init by {
        forall i | 0 <= i < |init| ensures init[i] != ks[|ks| - 1] {
          assert init[i] == ks[i];
        }
      }
    }
  }

  /** `{ ship, count }` for each ship, the count being its `amount` or 1. */
  function ShipEntries(ships: seq<Ship>): (r: seq<ShipEntry>)
    ensures |r| == |ships|
  {
    if ships == [] then []
    else ShipEntries(ships[..|ships| - 1]) + [ShipEntry(ships[|ships| - 1], Count(ships[|ships| - 1]))]
  }

  /** `{ part, count }` for each part, the count being its quantity. */
  function PartEntries(parts: seq<Nft>): (r: seq<PartEntry>)
    ensures |r| == |parts|
  {
    if parts == [] then []
    else PartEntries(parts[..|parts| - 1]) + [PartEntry(parts[|parts| - 1], Quantity(parts[|parts| - 1]))]
  }

  /** The matching pair of one ship and one part. */
  function Pair(ship: Ship, part: Nft): (p: MatchPair)
    ensures p.ship == ship && p.part == part
    ensures p.shipCount == Count(ship) && p.partCount == Quantity(part)
    ensures p.difference == p.partCount - p.shipCount
  {
    MatchPair(ship, part, Count(ship), part.quantity, part.quantity - Count(ship))
  }

  /** One ship paired with each part in turn. */
  function PairsWith(ship: Ship, parts: seq<Nft>): (r: seq<MatchPair>)
    ensures |r| == |parts|
  {
    if parts == [] then [] else PairsWith(ship, parts[..|parts| - 1]) + [Pair(ship, parts[|parts| - 1])]
  }

  /** Every ship paired with every part, ship by ship. */
  function CrossPairs(ships: seq<Ship>, parts: seq<Nft>): seq<MatchPair>
  {
    if ships == [] then [] else CrossPairs(ships[..|ships| - 1], parts) + PairsWith(ships[|ships| - 1], parts)
  }

  /** The cross products of the ship and part groups of each key of `ks`, key by key. */
  function PairsOver(ships: seq<Ship>, parts: seq<Nft>, ks: seq<string>): seq<MatchPair>
  {
    if ks == [] then []
    else PairsOver(ships, parts, ks[..|ks| - 1])
         + CrossPairs(WithKey(ships, ShipKey, ks[|ks| - 1]), WithKey(parts, PartKey, ks[|ks| - 1]))
  }

  /** `shipsWithoutParts`: the ships of every symbol no part is grouped under,
      symbol by symbol in first-seen order. */
  function ShipsWithoutParts(ships: seq<Ship>, parts: seq<Nft>): seq<ShipEntry>
  {
    ShipEntries(GroupsConcat(ships, ShipKey, Unmatched(ShipKeys(ships), PartKeys(parts))))
  }

  /** `partsWithoutShips`: the parts of every group key no ship carries, key by
      key in first-seen order. */
  function PartsWithoutShips(parts: seq<Nft>, ships: seq<Ship>): seq<PartEntry>
  {
    PartEntries(GroupsConcat(parts, PartKey, Unmatched(PartKeys(parts), ShipKeys(ships))))
  }

  /** `matchingPairs`: for each ship symbol in first-seen order, the cross
      product of its ships and the parts grouped under it. */
  function MatchingPairs(ships: seq<Ship>, parts: seq<Nft>): seq<MatchPair>
  {
    PairsOver(ships, parts, ShipKeys(ships))
  }

  /* ---------- The result lists, as functions of the two maps ---------- */

  /** The entries for the ship groups of `ks` that have no part group. */
  function ShipsWithoutPartsOf(shipMap: OMap<Group<Ship>>, partMap: OMap<Group<Nft>>, ks: seq<string>): seq<ShipEntry>
  {
    if ks == [] then []
    else
      var k := ks[|ks| - 1];
      ShipsWithoutPartsOf(shipMap, partMap, ks[..|ks| - 1])
      + if k in shipMap.entries && k !in partMap.entries then ShipEntries(shipMap.entries[k].members) else []
  }

  /** The entries for the part groups of `ks` that have no ship group. */
  function PartsWithoutShipsOf(partMap: OMap<Group<Nft>>, shipMap: OMap<Group<Ship>>, ks: seq<string>): seq<PartEntry>
  {
    if ks == [] then []
    else
      var k := ks[|ks| - 1];
      PartsWithoutShipsOf(partMap, shipMap, ks[..|ks| - 1])
      + if k in partMap.entries && k !in shipMap.entries then PartEntries(partMap.entries[k].members) else []
  }

  /** The cross products of the groups of `ks` present in both maps. */
  function MatchingPairsOf(shipMap: OMap<Group<Ship>>, partMap: OMap<Group<Nft>>, ks: seq<string>): seq<MatchPair>
  {
    if ks == [] then []
    else
      var k := ks[|ks| - 1];
      MatchingPairsOf(shipMap, partMap, ks[..|ks| - 1])
      + if k in shipMap.entries && k in partMap.entries
        then CrossPairs(shipMap.entries[k].members, partMap.entries[k].members) else []
  }

  /* ---------- The comparison ---------- */

  /** `compareShipsAndParts(ships, shipParts)`. */
  method CompareShipsAndParts(ships: seq<Ship>, shipParts: seq<Nft>) returns (r: ComparisonResult)
    ensures r.shipsWithoutParts == ShipsWithoutParts(ships, shipParts)
    ensures r.partsWithoutShips == PartsWithoutShips(shipParts, ships)
    ensures r.matchingPairs == MatchingPairs(ships, shipParts)
  {
    var shipMap := GroupBy(ships, ShipKey, Count);
    var partMap := GroupBy(shipParts, PartKey, Quantity);
    GroupsOfGroups(ships, ShipKey, Count);
    GroupsOfGroups(shipParts, PartKey, Quantity);
    var shipsWithoutParts, matchingPairs := SplitShipGroups(shipMap, partMap);
    var partsWithoutShips := PartsWithoutShipGroups(partMap, shipMap);
    r := ComparisonResult(shipsWithoutParts, partsWithoutShips, matchingPairs);
    ShipSideFromGroups(ships, shipParts, shipMap, partMap);
    PartSideFromGroups(ships, shipParts, shipMap, partMap);
  }

  /** The lists the loop over `shipMap` builds are the ones of the specification. */
  lemma {:induction false} ShipSideFromGroups(ships: seq<Ship>, parts: seq<Nft>, shipMap: OMap<Group<Ship>>, partMap: OMap<Group<Nft>>)
    requires Groups(shipMap, ships, ShipKey, Count) && Groups(partMap, parts, PartKey, Quantity)
    ensures ShipsWithoutPartsOf(shipMap, partMap, shipMap.keys) == ShipsWithoutParts(ships, parts)
    ensures MatchingPairsOf(shipMap, partMap, shipMap.keys) == MatchingPairs(ships, parts)
  {
    ResultsFromGroups(ships, parts, shipMap, partMap, shipMap.keys);
  }

  /** The list the loop over `partMap` builds is the one of the specification. */
  lemma {:induction false} PartSideFromGroups(ships: seq<Ship>, parts: seq<Nft>, shipMap: OMap<Group<Ship>>, partMap: OMap<Group<Nft>>)
    requires Groups(shipMap, ships, ShipKey, Count) && Groups(partMap, parts, PartKey, Quantity)
    ensures PartsWithoutShipsOf(partMap, shipMap, partMap.keys) == PartsWithoutShips(parts, ships)
  {
    ResultsFromGroups'(ships, parts, shipMap, partMap, partMap.keys);
  }

  /** The loop over `shipMap.entries()`: a symbol without a part group sends its
      ships to `shipsWithoutParts`, one with a part group adds the cross product. */
  method SplitShipGroups(shipMap: OMap<Group<Ship>>, partMap: OMap<Group<Nft>>)
    returns (shipsWithoutParts: seq<ShipEntry>, matchingPairs: seq<MatchPair>)
    requires shipMap.Valid()
    ensures shipsWithoutParts == ShipsWithoutPartsOf(shipMap, partMap, shipMap.keys)
    ensures matchingPairs == MatchingPairsOf(shipMap, partMap, shipMap.keys)
  {
    shipsWithoutParts, matchingPairs := [], [];
    var j := 0;
    while j < |shipMap.keys|
      invariant 0 <= j <= |shipMap.keys|
      invariant shipsWithoutParts == ShipsWithoutPartsOf(shipMap, partMap, shipMap.keys[..j])
      invariant matchingPairs == MatchingPairsOf(shipMap, partMap, shipMap.keys[..j])
    {
      var symbol := shipMap.keys[j];
      SplitStep(shipMap, partMap, shipMap.keys, j);
      assert symbol in shipMap.entries;
      var group := shipMap.entries[symbol].members;
      if !partMap.Has(symbol) {
        shipsWithoutParts := PushShipEntries(shipsWithoutParts, group);
      } else {
        var parts := partMap.entries[symbol].members;
        matchingPairs := PushCrossPairs(matchingPairs, group, parts);
      }
      j := j + 1;
    }
    assert shipMap.keys[..j] == shipMap.keys;
  }

  /** One more key of the loop over `shipMap.entries()`. */
  lemma {:induction false} SplitStep(shipMap: OMap<Group<Ship>>, partMap: OMap<Group<Nft>>, ks: seq<string>, j: nat)
    requires j < |ks|
    ensures ShipsWithoutPartsOf(shipMap, partMap, ks[..j + 1])
            == ShipsWithoutPartsOf(shipMap, partMap, ks[..j])
               + if ks[j] in shipMap.entries && ks[j] !in partMap.entries
                 then ShipEntries(shipMap.entries[ks[j]].members) else []
    ensures MatchingPairsOf(shipMap, partMap, ks[..j + 1])
            == MatchingPairsOf(shipMap, partMap, ks[..j])
               + if ks[j] in shipMap.entries && ks[j] in partMap.entries
                 then CrossPairs(shipMap.entries[ks[j]].members, partMap.entries[ks[j]].members) else []
  {
    assert ks[..j + 1][..j] == ks[..j];
  }

  /** One more key of the loop over `partMap.entries()`. */
  lemma {:induction false} PartsStep(partMap: OMap<Group<Nft>>, shipMap: OMap<Group<Ship>>, ks: seq<string>, l: nat)
    requires l < |ks|
    ensures PartsWithoutShipsOf(partMap, shipMap, ks[..l + 1])
            == PartsWithoutShipsOf(partMap, shipMap, ks[..l])
               + if ks[l] in partMap.entries && ks[l] !in shipMap.entries
                 then PartEntries(partMap.entries[ks[l]].members) else []
  {
    assert ks[..l + 1][..l] == ks[..l];
  }

  /** The loop over `partMap.entries()`: a symbol without a ship group sends its
      parts to `partsWithoutShips`. */
  method PartsWithoutShipGroups(partMap: OMap<Group<Nft>>, shipMap: OMap<Group<Ship>>)
    returns (partsWithoutShips: seq<PartEntry>)
    requires partMap.Valid()
    ensures partsWithoutShips == PartsWithoutShipsOf(partMap, shipMap, partMap.keys)
  {
    partsWithoutShips := [];
    var l := 0;
    while l < |partMap.keys|
      invariant 0 <= l <= |partMap.keys|
      invariant partsWithoutShips == PartsWithoutShipsOf(partMap, shipMap, partMap.keys[..l])
    {
      var symbol := partMap.keys[l];
      PartsStep(partMap, shipMap, partMap.keys, l);
      if !shipMap.Has(symbol) {
        assert symbol in partMap.entries;
        partsWithoutShips := PushPartEntries(partsWithoutShips, partMap.entries[symbol].members);
      }
      l := l + 1;
    }
    assert partMap.keys[..l] == partMap.keys;
  }

  /** `for (const ship of ships) shipsWithoutParts.push({ ship, count })` */
  method PushShipEntries(out: seq<ShipEntry>, group: seq<Ship>) returns (r: seq<ShipEntry>)
    ensures r == out + ShipEntries(group)
  {
    r := out;
    var t := 0;
    while t < |group|
      invariant 0 <= t <= |group|
      invariant r == out + ShipEntries(group[..t])
    {
      var ship := group[t];
      var count := Count(ship);
      r := r + [ShipEntry(ship, count)];
      assert group[..t + 1][..t] == group[..t];
      t := t + 1;
    }
    assert group[..t] == group;
  }

  /** `for (const part of parts) partsWithoutShips.push({ part, count: part.quantity })` */
  method PushPartEntries(out: seq<PartEntry>, group: seq<Nft>) returns (r: seq<PartEntry>)
    ensures r == out + PartEntries(group)
  {
    r := out;
    var t := 0;
    while t < |group|
      invariant 0 <= t <= |group|
      invariant r == out + PartEntries(group[..t])
    {
      var part := group[t];
      r := r + [PartEntry(part, part.quantity)];
      assert group[..t + 1][..t] == group[..t];
      t := t + 1;
    }
    assert group[..t] == group;
  }

  /** The nested loops that push one matching pair per ship and part of a symbol. */
  method PushCrossPairs(out: seq<MatchPair>, group: seq<Ship>, parts: seq<Nft>) returns (r: seq<MatchPair>)
    ensures r == out + CrossPairs(group, parts)
  {
    r := out;
    var t := 0;
    while t < |group|
      invariant 0 <= t <= |group|
      invariant r == out + CrossPairs(group[..t], parts)
    {
      r := PushPairsWith(r, group[t], parts);
      assert group[..t + 1][..t] == group[..t];
      t := t + 1;
    }
    assert group[..t] == group;
  }

  /** The inner loop: the pairs of one ship with each part of its symbol. */
  method PushPairsWith(out: seq<MatchPair>, ship: Ship, parts: seq<Nft>) returns (r: seq<MatchPair>)
    ensures r == out + PairsWith(ship, parts)
  {
    r := out;
    var shipCount := Count(ship);
    var u := 0;
    while u < |parts|
      invariant 0 <= u <= |parts|
      invariant r == out + PairsWith(ship, parts[..u])
    {
      var part := parts[u];
      r := r + [MatchPair(ship, part, shipCount, part.quantity, part.quantity - shipCount)];
      assert parts[..u + 1][..u] == parts[..u];
      u := u + 1;
    }
    assert parts[..u] == parts;
  }

  /** The ship-side lists built from the maps are the lists of the specification
      over the inputs. */
  lemma {:induction false} ResultsFromGroups(ships: seq<Ship>, parts: seq<Nft>, shipMap: OMap<Group<Ship>>, partMap: OMap<Group<Nft>>, ks: seq<string>)
    requires forall k :: k in ks ==> k in shipMap.entries && shipMap.entries[k].members == WithKey(ships, ShipKey, k)
    requires forall k :: k in partMap.entries <==> k in PartKeys(parts)
    requires forall k :: k in partMap.entries ==> partMap.entries[k].members == WithKey(parts, PartKey, k)
    ensures ShipsWithoutPartsOf(shipMap, partMap, ks) == ShipEntries(GroupsConcat(ships, ShipKey, Unmatched(ks, PartKeys(parts))))
    ensures MatchingPairsOf(shipMap, partMap, ks) == PairsOver(ships, parts, ks)
  {
    if ks != [] {
      var init, k := ks[..|ks| - 1], ks[|ks| - 1];
      assert forall k' :: k' in init ==> k' in ks;
      ResultsFromGroups(ships, parts, shipMap, partMap, init);
      if k in partMap.entries {
        assert Unmatched(ks, PartKeys(parts)) == Unmatched(init, PartKeys(parts));
      } else {
        assert Unmatched(ks, PartKeys(parts)) == Unmatched(init, PartKeys(parts)) + [k];
        ShipEntriesAppend(GroupsConcat(ships, ShipKey, Unmatched(init, PartKeys(parts))), WithKey(ships, ShipKey, k));
        KeyHasMembers(parts, PartKey, k);
        CrossPairsOfNone(WithKey(ships, ShipKey, k));
      }
    }
  }

  /** The part-side list built from the maps is the list of the specification
      over the inputs. */
  lemma {:induction false} ResultsFromGroups'(ships: seq<Ship>, parts: seq<Nft>, shipMap: OMap<Group<Ship>>, partMap: OMap<Group<Nft>>, ks: seq<string>)
    requires forall k :: k in ks ==> k in partMap.entries && partMap.entries[k].members == WithKey(parts, PartKey, k)
    requires forall k :: k in shipMap.entries <==> k in ShipKeys(ships)
    ensures PartsWithoutShipsOf(partMap, shipMap, ks) == PartEntries(GroupsConcat(parts, PartKey, Unmatched(ks, ShipKeys(ships))))
  {
    if ks != [] {
      var init, k := ks[..|ks| - 1], ks[|ks| - 1];
      assert forall k' :: k' in init ==> k' in ks;
      ResultsFromGroups'(ships, parts, shipMap, partMap, init);
      var sk := ShipKeys(ships);
      if k in shipMap.entries {
        assert PartsWithoutShipsOf(partMap, shipMap, ks) == PartsWithoutShipsOf(partMap, shipMap, init);
        assert Unmatched(ks, sk) == Unmatched(init, sk);
      } else {
        var group := partMap.entries[k].members;
        assert PartsWithoutShipsOf(partMap, shipMap, ks) == PartsWithoutShipsOf(partMap, shipMap, init) + PartEntries(group);
        assert Unmatched(ks, sk) == Unmatched(init, sk) + [k];
        var u := Unmatched(init, sk);
        assert (u + [k])[..|u|] == u;
        assert GroupsConcat(parts, PartKey, u + [k]) == GroupsConcat(parts, PartKey, u) + group;
        PartEntriesAppend(GroupsConcat(parts, PartKey, u), group);
      }
    }
  }

  lemma {:induction false} ShipEntriesAppend(a: seq<Ship>, b: seq<Ship>)
    ensures ShipEntries(a + b) == ShipEntries(a) + ShipEntries(b)
  {
    if b == [] {
      assert a + b == a;
    } else {
      var init := b[..|b| - 1];
      assert (a + b)[..|a + b| - 1] == a + init;
      ShipEntriesAppend(a, init);
    }
  }

  lemma {:induction false} PartEntriesAppend(a: seq<Nft>, b: seq<Nft>)
    ensures PartEntries(a + b) == PartEntries(a) + PartEntries(b)
  {
    if b == [] {
      assert a + b == a;
    } else {
      var init := b[..|b| - 1];
      assert (a + b)[..|a + b| - 1] == a + init;
      PartEntriesAppend(a, init);
    }
  }

  lemma {:induction false} CrossPairsOfNone(ships: seq<Ship>)
    ensures CrossPairs(ships, []) == []
  {
    if ships != [] {
      CrossPairsOfNone(ships[..|ships| - 1]);
    }
  }
}
