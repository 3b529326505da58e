/** The records the reconciliation works on: ship records of two source shapes,
    NFT inventory records (which are also the ship parts), and the keys the
    comparison groups them by. */
module Records {
  import opened Basics

  /** The source tells a staked ship from any other by the presence of a
      `faction` field; here that test is an explicit tag. */
  datatype Origin = Staked | Generic

  /** The loosely typed `attributes` object of a ship record: only the two
      string properties that symbol derivation reads. */
  datatype Attributes = Attributes(symbol: Option<string>, name: Option<string>)

  /** A ship record (`ShipInfo` or `StakedShipInfo`, possibly extended with a
      `symbol`). `amount == None` means the record has no `amount` property. */
  datatype Ship = Ship(
    origin: Origin,
    mint: string,
    name: string,
    amount: Option<int>,
    symbol: Option<string>,
    attributes: Option<Attributes>,
    spec: Option<string>)

  /** An NFT inventory record (`NFTMetadata`); ship parts are NFTs too. */
  datatype Nft = Nft(
    mint: string,
    name: string,
    symbol: Option<string>,
    quantity: int,
    itemType: string,
    spec: Option<string>)

  /** `'amount' in ship ? ship.amount : 1` */
  function Count(s: Ship): (r: int)
    ensures s.amount.Some? ==> r == s.amount.value
    ensures s.amount.None? ==> r == 1
  {
    match s.amount
    case Some(a) => a
    case None => 1
  }

  /** The number of units an NFT record stands for. */
  function Quantity(p: Nft): int
  {
    p.quantity
  }

  /** The suffix that turns a ship symbol into the symbol of its part. */
  const PartSuffix: string := "SP"

  /** The key a ship is grouped under: its symbol, when that is truthy. */
  function ShipKey(s: Ship): (r: Option<string>)
    ensures r.Some? <==> Truthy(s.symbol)
    ensures r.Some? ==> s.symbol == r
  {
    if Truthy(s.symbol) then s.symbol else None
  }

  /** The key a part is grouped under: its symbol without the trailing "SP",
      when the symbol is truthy and ends in "SP"; otherwise the part is not grouped. */
  function PartKey(p: Nft): (r: Option<string>)
    ensures r.Some? <==> Truthy(p.symbol) && EndsWith(p.symbol.value, PartSuffix)
    ensures r.Some? ==> p.symbol == Some(r.value + PartSuffix)
  {
    if Truthy(p.symbol) && EndsWith(p.symbol.value, PartSuffix)
    then Some(p.symbol.value[..|p.symbol.value| - 2])
    else None
  }

  /** A part is grouped under `k` exactly when its symbol is `k` followed by "SP";
      so "ABC123SP" goes to "ABC123" and "ABC123" is not grouped at all. */
  lemma {:induction false} PartKeyStripsSuffix(p: Nft, k: string)
    ensures PartKey(p) == Some(k) <==> p.symbol == Some(k + PartSuffix)
  {
    if p.symbol == Some(k + PartSuffix) {
      var s := p.symbol.value;
      assert s[..|s| - 2] == k;
      assert s[|s| - 2..] == PartSuffix;
    }
    if PartKey(p) == Some(k) {
      var s := p.symbol.value;
      assert s == s[..|s| - 2] + s[|s| - 2..];
    }
  }
}
