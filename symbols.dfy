/** Symbol derivation: giving every ship record the optional identifying
    `symbol` that the comparison matches on (`toExtendedShipInfo`,
    `toExtendedStakedShipInfo`, `toExtendedShips`). */
module SymbolDerivation {
  import opened Basics
  import opened Records

  /** A character of the class `[A-Z0-9]`. */
  predicate IsTokenChar(c: char)
  {
    'A' <= c <= 'Z' || '0' <= c <= '9'
  }

  /** `s[i..j+1]` matches `\(([A-Z0-9]+)\)`, the capture being `s[i+1..j]`. */
  ghost predicate TokenMatch(s: string, i: int, j: int)
  {
    && 0 <= i && i + 1 < j < |s|
    && s[i] == '(' && s[j] == ')'
    && forall m :: i < m < j ==> IsTokenChar(s[m])
  }

  /** The end of the run of token characters that starts at `k`. */
  function RunEnd(s: string, k: nat): (e: nat)
    requires k <= |s|
    ensures k <= e <= |s|
    ensures forall m :: k <= m < e ==> IsTokenChar(s[m])
    ensures e < |s| ==> !IsTokenChar(s[e])
    decreases |s| - k
  {
    if k < |s| && IsTokenChar(s[k]) then RunEnd(s, k + 1) else k
  }

  /** A match that starts at `i` closes where the run after `(` ends: the
      greedy `+` cannot stop earlier, since `)` is not a token character. */
  lemma {:induction false} MatchClosesAtRunEnd(s: string, i: nat, j: int)
    requires TokenMatch(s, i, j)
    ensures j == RunEnd(s, i + 1)
  {
  }

  /** The leftmost match at or after `i`, as the positions of its brackets. */
  function FirstMatchFrom(s: string, i: nat): (r: Option<(nat, nat)>)
    requires i <= |s|
    ensures r.Some? ==> i <= r.value.0 && TokenMatch(s, r.value.0, r.value.1)
    ensures r.Some? ==> forall p, q :: i <= p < r.value.0 ==> !TokenMatch(s, p, q)
    ensures r.None? ==> forall p, q :: i <= p ==> !TokenMatch(s, p, q)
    decreases |s| - i
  {
    if i == |s| then None
    else
      var e := RunEnd(s, i + 1);
      if s[i] == '(' && i + 1 < e < |s| && s[e] == ')' then Some((i, e))
      else
        assert forall q :: !TokenMatch(s, i, q) by {
          forall q | TokenMatch(s, i, q) ensures false {
            MatchClosesAtRunEnd(s, i, q);
          }
        }
        FirstMatchFrom(s, i + 1)
  }

  /** `name.match(/\(([A-Z0-9]+)\)/)?.[1]`: the capture of the leftmost match. */
  function BracketToken(name: string): (r: Option<string>)
    ensures r.Some? ==> exists i, j :: TokenMatch(name, i, j) && r.value == name[i + 1..j]
                                        && forall p, q :: TokenMatch(name, p, q) ==> i <= p
    ensures r.None? ==> forall i, j :: !TokenMatch(name, i, j)
  {
    match FirstMatchFrom(name, 0)
    case None => None
    case Some((i, j)) => Some(name[i + 1..j])
  }

  /** `toExtendedShipInfo`: keep a truthy own symbol; otherwise take a truthy
      `attributes.symbol`; otherwise the bracketed token of a truthy
      `attributes.name`; otherwise leave the symbol as it was. */
  function ToExtendedShipInfo(ship: Ship): (r: Ship)
    ensures r == ship.(symbol := r.symbol)
    ensures Truthy(ship.symbol) ==> r.symbol == ship.symbol
    ensures !Truthy(ship.symbol) && ship.attributes.Some? && Truthy(ship.attributes.value.symbol)
            ==> r.symbol == ship.attributes.value.symbol
    ensures !Truthy(ship.symbol) && ship.attributes.Some? && !Truthy(ship.attributes.value.symbol)
            && Truthy(ship.attributes.value.name) && BracketToken(ship.attributes.value.name.value).Some?
            ==> r.symbol == BracketToken(ship.attributes.value.name.value)
    ensures r.symbol != ship.symbol
            ==> !Truthy(ship.symbol) && ship.attributes.Some?
                && (Truthy(ship.attributes.value.symbol)
                    || (Truthy(ship.attributes.value.name) && BracketToken(ship.attributes.value.name.value).Some?))
  {
    var symbol :=
      if Truthy(ship.symbol) || ship.attributes.None? then ship.symbol
      else
        var attrs := ship.attributes.value;
        if Truthy(attrs.symbol) then attrs.symbol
        else if Truthy(attrs.name) then
          match BracketToken(attrs.name.value)
          case Some(token) => Some(token)
          case None => ship.symbol
        else ship.symbol;
    ship.(symbol := symbol)
  }

  /** `toExtendedStakedShipInfo`: a staked record keeps its symbol verbatim. */
  function ToExtendedStakedShipInfo(ship: Ship): (r: Ship)
    ensures r == ship
  {
    ship.(symbol := ship.symbol)
  }

  /** `toExtendedShips`: one extended record per input record, in order. */
  function ToExtendedShips(ships: seq<Ship>): (r: seq<Ship>)
    ensures |r| == |ships|
    ensures forall i :: 0 <= i < |ships| ==> r[i] == ships[i].(symbol := r[i].symbol)
    ensures forall i :: 0 <= i < |ships| && ships[i].origin == Staked ==> r[i] == ships[i]
    ensures forall i :: 0 <= i < |ships| && ships[i].origin == Generic ==> r[i] == ToExtendedShipInfo(ships[i])
  {
    seq(|ships|, i requires 0 <= i < |ships| =>
      if ships[i].origin == Staked then ToExtendedStakedShipInfo(ships[i]) else ToExtendedShipInfo(ships[i]))
  }
}
