/** Consolidation of ship records by symbol, the loop of `analyzeFleet` that
    fills `shipsBySymbol` and returns its values. */
module Consolidation {
  import opened Basics
  import opened Records
  import opened Grouping
  import opened OrderedMap

  /** The symbols of `ships` in first-seen order; ships without a truthy symbol have none. */
  function Symbols(ships: seq<Ship>): seq<string>
  {
    KeysOf(ships, ShipKey)
  }

  /** How many ships carry symbol `k`, each counting its `amount`, or 1 without one. */
  function SymbolTotal(ships: seq<Ship>, k: string): int
  {
    SumOf(WithKey(ships, ShipKey, k), Count)
  }

  /** The entry that consolidation keeps for `k`: a copy of the first ship with
      that symbol whose `amount` is the total of the symbol. */
  function Representative(ships: seq<Ship>, k: string): (r: Ship)
    requires k in Symbols(ships)
    ensures ShipKey(r) == Some(k)
    ensures r.amount == Some(SymbolTotal(ships, k))
  {
    ships[FirstIndex(ships, ShipKey, k)].(amount := Some(SymbolTotal(ships, k)))
  }

  /** One pass of the consolidation loop over ship `x`: a ship without a truthy
      symbol is skipped; a new symbol gets a copy of the ship holding its count;
      a known symbol adds the count into the entry's `amount`, or sets it when
      the entry has none. The entry keeps its place in the map. */
  function Absorb(m: OMap<Ship>, x: Ship): (r: OMap<Ship>)
    ensures !Truthy(x.symbol) ==> r == m
    ensures Truthy(x.symbol) ==>
              var k := x.symbol.value;
              && r.keys == (if k in m.entries then m.keys else m.keys + [k])
              && k in r.entries
              && r.entries == m.entries[k := r.entries[k]]
              && r.entries[k] == (if k in m.entries then m.entries[k] else x).(
                   amount := Some((if k in m.entries && m.entries[k].amount.Some? then m.entries[k].amount.value else 0) + Count(x)))
  {
    if !Truthy(x.symbol) then m
    else
      var k := x.symbol.value;
      if !m.Has(k) then m.Set(k, x.(amount := Some(Count(x))))
      else
        var existing := m.entries[k];
        if existing.amount.Some? then m.Set(k, existing.(amount := Some(existing.amount.value + Count(x))))
        else m.Set(k, existing.(amount := Some(Count(x))))
  }

  /** The map the consolidation loop holds after walking `ships`. */
  function ConsolidatedMap(ships: seq<Ship>): OMap<Ship>
  {
    if ships == [] then Empty() else Absorb(ConsolidatedMap(ships[..|ships| - 1]), ships[|ships| - 1])
  }

  /** The consolidation loop: one entry per distinct symbol, in the order the
      symbols first appear; the first ship seen is the representative and the
      counts of all ships with the symbol are added into its `amount`. */
  method ConsolidateBySymbol(ships: seq<Ship>) returns (consolidated: seq<Ship>)
    ensures |consolidated| == |Symbols(ships)|
    ensures forall i :: 0 <= i < |consolidated| ==>
              consolidated[i] == Representative(ships, Symbols(ships)[i])
  {
    var bySymbol: OMap<Ship> := Empty();
    ghost var seen: seq<Ship> := [];
    var i := 0;
    while i < |ships|
      invariant 0 <= i <= |ships| && seen == ships[..i]
      invariant bySymbol == ConsolidatedMap(seen)
    {
      var ship := ships[i];
      ghost var next := Absorb(bySymbol, ship);
      if Truthy(ship.symbol) {
        var k := ship.symbol.value;
        var amount := Count(ship);
        if !bySymbol.Has(k) {
          bySymbol := bySymbol.Set(k, ship.(amount := Some(amount)));
        } else {
          var existing := bySymbol.entries[k];
          if existing.amount.Some? {
            bySymbol := bySymbol.Set(k, existing.(amount := Some(existing.amount.value + amount)));
          } else {
            bySymbol := bySymbol.Set(k, existing.(amount := Some(amount)));
          }
        }
      }
      assert bySymbol == next;
      assert (seen + [ship])[..|seen|] == seen;
      assert ships[..i + 1] == seen + [ship];
      seen := seen + [ship];
      i := i + 1;
    }
    assert seen == ships;
    ConsolidatedMapRepresents(ships);
    consolidated := bySymbol.Values();
  }

  /** How one more ship changes the symbols of a prefix. */
  lemma {:induction false} SymbolsStep(a: seq<Ship>, x: Ship)
    ensures Symbols(a + [x]) == if ShipKey(x).Some? && ShipKey(x).value !in Symbols(a)
                                then Symbols(a) + [ShipKey(x).value] else Symbols(a)
  {
    assert (a + [x])[..|a|] == a;
  }

  /** How one more ship changes the total of a symbol. */
  lemma {:induction false} TotalStep(a: seq<Ship>, x: Ship, k: string)
    ensures SymbolTotal(a + [x], k) == SymbolTotal(a, k) + if ShipKey(x) == Some(k) then Count(x) else 0
  {
    assert (a + [x])[..|a|] == a;
  }

  /** One more ship keeps the first ship of a seen symbol as its representative. */
  lemma {:induction false} RepresentativeStep(a: seq<Ship>, x: Ship, k: string)
    requires k in Symbols(a)
    ensures k in Symbols(a + [x])
    ensures Representative(a + [x], k) == Representative(a, k).(amount := Some(SymbolTotal(a + [x], k)))
  {
    SymbolsStep(a, x);
    assert (a + [x])[..|a|] == a;
    var j := FirstIndex(a, ShipKey, k);
    assert FirstIndex(a + [x], ShipKey, k) == j;
    assert (a + [x])[j] == a[j];
  }

  /** A ship with a new symbol becomes its representative, holding its own count. */
  lemma {:induction false} RepresentativeNew(a: seq<Ship>, x: Ship, k: string)
    requires ShipKey(x) == Some(k) && k !in Symbols(a)
    ensures k in Symbols(a + [x])
    ensures Representative(a + [x], k) == x.(amount := Some(Count(x)))
  {
    SymbolsStep(a, x);
    TotalStep(a, x, k);
    KeyHasMembers(a, ShipKey, k);
    var j := FirstIndex(a + [x], ShipKey, k);
    if j < |a| {
      assert false;
    }
  }

  /** `m` is what the consolidation loop holds after walking `seen`. */
  ghost predicate Consolidates(m: OMap<Ship>, seen: seq<Ship>)
  {
    m.Valid() && m.keys == Symbols(seen) && Represents(m.entries, seen)
  }

  /** Every entry of `e` is the representative of its symbol in `seen`. */
  ghost predicate Represents(e: map<string, Ship>, seen: seq<Ship>)
  {
    forall k :: k in e ==> k in Symbols(seen) && e[k] == Representative(seen, k)
  }

  lemma {:induction false} RepresentsNew(e: map<string, Ship>, seen: seq<Ship>, x: Ship)
    requires Represents(e, seen)
    requires Truthy(x.symbol) && x.symbol.value !in Symbols(seen)
    ensures Represents(e[x.symbol.value := x.(amount := Some(Count(x)))], seen + [x])
  {
    var k := x.symbol.value;
    RepresentativeNew(seen, x, k);
    var e' := e[k := x.(amount := Some(Count(x)))];
    forall k' | k' in e' ensures k' in Symbols(seen + [x]) && e'[k'] == Representative(seen + [x], k') {
      if k' != k {
        RepresentativeStep(seen, x, k');
        TotalStep(seen, x, k');
      }
    }
  }

  lemma {:induction false} RepresentsSeen(e: map<string, Ship>, seen: seq<Ship>, x: Ship, k: string, existing: Ship)
    requires Represents(e, seen)
    requires ShipKey(x) == Some(k) && k in e && e[k] == existing
    ensures existing.amount.Some?
    ensures Represents(e[k := existing.(amount := Some(existing.amount.value + Count(x)))], seen + [x])
  {
    assert existing == Representative(seen, k);
    var e' := e[k := existing.(amount := Some(existing.amount.value + Count(x)))];
    SeenEntryUpdated(seen, x, k, existing);
    forall k' | k' in e && k' != k ensures k' in Symbols(seen + [x]) && e'[k'] == Representative(seen + [x], k') {
      RepresentativeStep(seen, x, k');
      TotalStep(seen, x, k');
    }
  }

  /** Adding a ship to a seen symbol adds its count into the representative. */
  lemma {:induction false} SeenEntryUpdated(seen: seq<Ship>, x: Ship, k: string, existing: Ship)
    requires ShipKey(x) == Some(k) && k in Symbols(seen) && existing == Representative(seen, k)
    ensures existing.amount.Some?
    ensures k in Symbols(seen + [x])
    ensures existing.(amount := Some(existing.amount.value + Count(x))) == Representative(seen + [x], k)
  {
    RepresentativeStep(seen, x, k);
    TotalStep(seen, x, k);
  }

  lemma {:induction false} RepresentsUnkeyed(e: map<string, Ship>, seen: seq<Ship>, x: Ship)
    requires Represents(e, seen)
    requires !Truthy(x.symbol)
    ensures Represents(e, seen + [x])
  {
    forall k | k in e ensures k in Symbols(seen + [x]) && e[k] == Representative(seen + [x], k) {
      RepresentativeStep(seen, x, k);
      TotalStep(seen, x, k);
    }
  }

  lemma {:induction false} AbsorbNew(m: OMap<Ship>, seen: seq<Ship>, x: Ship)
    requires Consolidates(m, seen)
    requires Truthy(x.symbol) && x.symbol.value !in m.entries
    ensures Consolidates(Absorb(m, x), seen + [x])
  {
    SymbolsStep(seen, x);
    RepresentsNew(m.entries, seen, x);
    SetValid(m, x.symbol.value, x.(amount := Some(Count(x))));
  }

  lemma {:induction false} AbsorbSeenShape(m: OMap<Ship>, x: Ship, k: string, existing: Ship)
    requires Truthy(x.symbol) && x.symbol.value == k
    requires k in m.entries && m.entries[k] == existing && existing.amount.Some?
    ensures Absorb(m, x) == m.Set(k, existing.(amount := Some(existing.amount.value + Count(x))))
    ensures Absorb(m, x).keys == m.keys
  {
  }

  lemma {:induction false} AbsorbUnkeyed(m: OMap<Ship>, seen: seq<Ship>, x: Ship)
    requires Consolidates(m, seen)
    requires !Truthy(x.symbol)
    ensures Consolidates(Absorb(m, x), seen + [x])
  {
    SymbolsStep(seen, x);
    RepresentsUnkeyed(m.entries, seen, x);
  }

  /** Every pass of the loop keeps the map's meaning: each symbol seen so far,
      in first-seen order, mapped to its representative. */
  lemma {:induction false} AbsorbKeepsMeaning(m: OMap<Ship>, seen: seq<Ship>, x: Ship)
    requires Consolidates(m, seen)
    ensures Consolidates(Absorb(m, x), seen + [x])
  {
    if !Truthy(x.symbol) {
      AbsorbUnkeyed(m, seen, x);
    } else if x.symbol.value in m.entries {
      var k := x.symbol.value;
      var existing := m.entries[k];
      RepresentsSeen(m.entries, seen, x, k, existing);
      var updated := existing.(amount := Some(existing.amount.value + Count(x)));
      AbsorbSeenShape(m, x, k, existing);
      SetValid(m, k, updated);
      assert k in Symbols(seen);
      SymbolsStep(seen, x);
      assert m.Set(k, updated).keys == Symbols(seen + [x]);
    } else {
      AbsorbNew(m, seen, x);
    }
  }

  /** The map built by the loop holds exactly the representatives, keyed in
      first-seen order. */
  lemma {:induction false} ConsolidatedMapRepresents(ships: seq<Ship>)
    ensures Consolidates(ConsolidatedMap(ships), ships)
  {
    if ships != [] {
      var init := ships[..|ships| - 1];
      assert ships == init + [ships[|ships| - 1]];
      ConsolidatedMapRepresents(init);
      AbsorbKeepsMeaning(ConsolidatedMap(init), init, ships[|ships| - 1]);
    }
  }

  /** Reordering the input changes no total and no set of symbols; only the
      choice of representative may differ. */
  lemma {:induction false} TotalsIgnoreOrder(a: seq<Ship>, b: seq<Ship>, k: string)
    requires multiset(a) == multiset(b)
    ensures SymbolTotal(a, k) == SymbolTotal(b, k)
    ensures k in Symbols(a) <==> k in Symbols(b)
  {
    forall x ensures multiset(WithKey(a, ShipKey, k))[x] == multiset(WithKey(b, ShipKey, k))[x] {
      WithKeyCounts(a, ShipKey, k, x);
      WithKeyCounts(b, ShipKey, k, x);
    }
    assert multiset(WithKey(a, ShipKey, k)) == multiset(WithKey(b, ShipKey, k));
    SumOfPermutation(WithKey(a, ShipKey, k), WithKey(b, ShipKey, k), Count);
    KeyHasMembers(a, ShipKey, k);
    KeyHasMembers(b, ShipKey, k);
  }

  /** After consolidation every symbol is carried by exactly one ship. */
  lemma {:induction false} ConsolidatedSymbolsAreUnique(ships: seq<Ship>, consolidated: seq<Ship>)
    requires |consolidated| == |Symbols(ships)|
    requires forall i :: 0 <= i < |consolidated| ==> consolidated[i] == Representative(ships, Symbols(ships)[i])
    ensures KeysOf(consolidated, ShipKey) == Symbols(ships)
    ensures forall k :: k in Symbols(ships) ==> WithKey(consolidated, ShipKey, k) == [Representative(ships, k)]
    ensures forall k :: k !in Symbols(ships) ==> WithKey(consolidated, ShipKey, k) == []
  {
    var ks := Symbols(ships);
    forall i | 0 <= i < |consolidated| ensures ShipKey(consolidated[i]) == Some(ks[i]) {
      var j := FirstIndex(ships, ShipKey, ks[i]);
      assert ShipKey(ships[j]) == Some(ks[i]);
    }
    DistinctKeysSingletons(consolidated, ShipKey, ks);
    KeysOfDistinct(consolidated, ShipKey, ks);
    forall k | k in ks ensures WithKey(consolidated, ShipKey, k) == [Representative(ships, k)] {
      var i :| 0 <= i < |ks| && ks[i] == k;
    }
  }
}
