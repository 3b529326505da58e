/** The matching-pairs part of `displayShipPartComparison`: pairs are
    deduplicated by `ship.name + "-" + part.name`, a later pair replacing the
    kept one only when its |difference| is strictly larger, and every kept pair
    is labelled by the sign of its difference. The report lines are returned
    instead of being printed. */
module Report {
  import opened Basics
  import opened Records
  import opened Grouping
  import opened OrderedMap
  import opened Comparison

  /** The status shown for a kept pair: `n ship parts en trop`,
      `n ship parts manquants` or `Quantités égales`. */
  datatype Status = Surplus(extra: nat) | Deficit(missing: nat) | Equal

  /** One line of the report: the kept pair and its status. */
  datatype ReportLine = ReportLine(pair: MatchPair, status: Status)

  /** The key pairs are deduplicated by. Two different name pairs can share it
      when a name contains "-"; the model keeps that. */
  function DedupKey(p: MatchPair): (k: string)
    ensures |k| == |p.ship.name| + 1 + |p.part.name|
    ensures k[..|p.ship.name|] == p.ship.name && k[|p.ship.name|] == '-' && k[|p.ship.name| + 1..] == p.part.name
  {
    p.ship.name + "-" + p.part.name
  }

  /** `DedupKey` as a grouping key. */
  function PairName(p: MatchPair): Option<string>
  {
    Some(DedupKey(p))
  }

  /** The label of a difference: surplus when positive, deficit (by its
      absolute value) when negative, equal when zero. */
  function StatusOf(difference: int): (s: Status)
    ensures s.Surplus? <==> difference > 0
    ensures s.Deficit? <==> difference < 0
    ensures s.Equal? <==> difference == 0
    ensures s.Surplus? ==> s.extra == difference
    ensures s.Deficit? ==> s.missing == -difference
  {
    if difference > 0 then Surplus(difference)
    else if difference < 0 then Deficit(Abs(difference))
    else Equal
  }

  /* ---------- Deduplication as a function ---------- */

  /** One pass of the dedup loop: the pair is stored when its key is new or
      its |difference| is strictly larger than the stored one's. */
  function Keep(m: OMap<MatchPair>, p: MatchPair): (r: OMap<MatchPair>)
    ensures var key := DedupKey(p);
            && r.keys == (if key in m.entries then m.keys else m.keys + [key])
            && key in r.entries
            && r.entries == m.entries[key := r.entries[key]]
            && (r.entries[key] == p || (key in m.entries && r.entries[key] == m.entries[key]))
            && Abs(p.difference) <= Abs(r.entries[key].difference)
            && (key in m.entries ==> Abs(m.entries[key].difference) <= Abs(r.entries[key].difference))
            && (key in m.entries && r.entries[key] != m.entries[key] ==> Abs(m.entries[key].difference) < Abs(p.difference))
  {
    var key := DedupKey(p);
    if !m.Has(key) || Abs(p.difference) > Abs(m.entries[key].difference) then m.Set(key, p) else m
  }

  /** `groupedPairs` after the dedup loop over `pairs`. */
  function Dedup(pairs: seq<MatchPair>): (r: OMap<MatchPair>)
    ensures |r.keys| <= |pairs|
    ensures pairs != [] ==> DedupKey(pairs[|pairs| - 1]) in r.entries
  {
    if pairs == [] then Empty() else Keep(Dedup(pairs[..|pairs| - 1]), pairs[|pairs| - 1])
  }

  /** A pass stores its pair's key and keeps every stored key. */
  lemma {:induction false} KeepKeys(m: OMap<MatchPair>, p: MatchPair)
    ensures Keep(m, p).entries.Keys == m.entries.Keys + {DedupKey(p)}
    ensures Keep(m, p).keys == if DedupKey(p) in m.entries then m.keys else m.keys + [DedupKey(p)]
  {
  }

  /** The dedup map is well formed and holds one entry per distinct key, in
      the order the keys are first seen. */
  lemma {:induction false} DedupKeys(pairs: seq<MatchPair>)
    ensures Dedup(pairs).Valid()
    ensures Dedup(pairs).keys == KeysOf(pairs, PairName)
  {
    if pairs != [] {
      var init, p := pairs[..|pairs| - 1], pairs[|pairs| - 1];
      assert pairs == init + [p];
      DedupKeys(init);
      KeysStep(init, p, PairName);
      KeepKeys(Dedup(init), p);
      if DedupKey(p) !in Dedup(init).entries {
        SetValid(Dedup(init), DedupKey(p), p);
      } else if Abs(p.difference) > Abs(Dedup(init).entries[DedupKey(p)].difference) {
        SetValid(Dedup(init), DedupKey(p), p);
      }
    }
  }

  /** Every pair's key has an entry. */
  lemma {:induction false} DedupHas(pairs: seq<MatchPair>, j: nat)
    requires j < |pairs|
    ensures DedupKey(pairs[j]) in Dedup(pairs).entries
  {
    var init := pairs[..|pairs| - 1];
    KeepKeys(Dedup(init), pairs[|pairs| - 1]);
    if j < |init| {
      DedupHas(init, j);
      assert init[j] == pairs[j];
    }
  }

  /** The pair kept for a key is one of the input pairs with that key. */
  lemma {:induction false} DedupSound(pairs: seq<MatchPair>, k: string)
    requires k in Dedup(pairs).entries
    ensures DedupKey(Dedup(pairs).entries[k]) == k
    ensures Dedup(pairs).entries[k] in pairs
  {
    var init, p := pairs[..|pairs| - 1], pairs[|pairs| - 1];
    assert pairs == init + [p];
    var m := Dedup(init);
    if k in m.entries && Dedup(pairs).entries[k] == m.entries[k] {
      DedupSound(init, k);
    }
  }

  /** No pair of a key has a larger |difference| than the pair kept for it. */
  lemma {:induction false} DedupMax(pairs: seq<MatchPair>, j: nat)
    requires j < |pairs|
    ensures DedupKey(pairs[j]) in Dedup(pairs).entries
    ensures Abs(pairs[j].difference) <= Abs(Dedup(pairs).entries[DedupKey(pairs[j])].difference)
  {
    DedupHas(pairs, j);
    var init := pairs[..|pairs| - 1];
    if j < |init| {
      DedupMax(init, j);
      assert init[j] == pairs[j];
    }
  }

  /** Among pairs of a key with the largest |difference|, the first is kept:
      the kept pair occurs no later than any pair that ties with it. */
  lemma {:induction false} DedupFirst(pairs: seq<MatchPair>, j: nat)
    requires j < |pairs|
    requires DedupKey(pairs[j]) in Dedup(pairs).entries
    requires Abs(pairs[j].difference) == Abs(Dedup(pairs).entries[DedupKey(pairs[j])].difference)
    ensures Dedup(pairs).entries[DedupKey(pairs[j])] in pairs[..j + 1]
  {
    var init, p := pairs[..|pairs| - 1], pairs[|pairs| - 1];
    var k := DedupKey(pairs[j]);
    var m := Dedup(init);
    if j < |init| {
      assert init[j] == pairs[j];
      assert init[..j + 1] == pairs[..j + 1];
      DedupMax(init, j);
      if Abs(init[j].difference) == Abs(m.entries[k].difference) {
        DedupFirst(init, j);
      }
    } else if k in m.entries && Dedup(pairs).entries[k] != p {
      DedupSound(init, k);
      assert pairs[..j + 1] == pairs;
    }
  }

  /* ---------- The report ---------- */

  /** The report line of a kept pair. */
  function LineOf(p: MatchPair): (l: ReportLine)
    ensures l.pair == p && l.status == StatusOf(p.difference)
  {
    ReportLine(p, StatusOf(p.difference))
  }

  /** `displayShipPartComparison` on the matching pairs: the dedup loop, then
      one line per kept pair in `groupedPairs.values()` order; an empty
      `matchingPairs` reports no pair. */
  method ReportPairs(matchingPairs: seq<MatchPair>) returns (lines: seq<ReportLine>)
    ensures Dedup(matchingPairs).Valid()
    ensures |lines| == |Dedup(matchingPairs).keys|
    ensures forall t :: 0 <= t < |lines| ==>
              lines[t] == LineOf(Dedup(matchingPairs).entries[Dedup(matchingPairs).keys[t]])
  {
    DedupKeys(matchingPairs);
    if |matchingPairs| == 0 {
      lines := [];
    } else {
      var groupedPairs := DedupPairs(matchingPairs);
      lines := LabelPairs(groupedPairs);
    }
  }

  /** The loop that fills `groupedPairs`. */
  method DedupPairs(matchingPairs: seq<MatchPair>) returns (groupedPairs: OMap<MatchPair>)
    ensures groupedPairs == Dedup(matchingPairs)
  {
    groupedPairs := Empty();
    var i := 0;
    while i < |matchingPairs|
      invariant 0 <= i <= |matchingPairs|
      invariant groupedPairs == Dedup(matchingPairs[..i])
    {
      var pair := matchingPairs[i];
      var key := DedupKey(pair);
      if !groupedPairs.Has(key) || Abs(pair.difference) > Abs(groupedPairs.entries[key].difference) {
        groupedPairs := groupedPairs.Set(key, pair);
      }
      assert matchingPairs[..i + 1][..i] == matchingPairs[..i];
      i := i + 1;
    }
    assert matchingPairs[..i] == matchingPairs;
  }

  /** The loop over `groupedPairs.values()` that labels each kept pair. */
  method LabelPairs(groupedPairs: OMap<MatchPair>) returns (lines: seq<ReportLine>)
    requires groupedPairs.Valid()
    ensures |lines| == |groupedPairs.keys|
    ensures forall t :: 0 <= t < |lines| ==> lines[t] == LineOf(groupedPairs.entries[groupedPairs.keys[t]])
  {
    lines := [];
    var t := 0;
    while t < |groupedPairs.keys|
      invariant 0 <= t <= |groupedPairs.keys|
      invariant |lines| == t
      invariant forall s :: 0 <= s < t ==> lines[s] == LineOf(groupedPairs.entries[groupedPairs.keys[s]])
    {
      assert groupedPairs.keys[t] in groupedPairs.entries;
      var pair := groupedPairs.entries[groupedPairs.keys[t]];
      lines := lines + [ReportLine(pair, StatusOf(pair.difference))];
      t := t + 1;
    }
  }
}
