/** The tile normaliser of `loadTiles`: the arrow function passed to `tilesArray.map`
    turns one record of the categorized-object form into the canonical tile shape. */
module Tiles {
  import opened Wrappers
  import opened Text

  /** An optional array of good or tile names; `None` is a missing (or null) field. */
  type Names = Option<seq<string>>

  /** The `requires` object of a raw record. A missing `money` compares as not positive. */
  datatype RawRequires = RawRequires(
    raw: Names,
    processed: Names,
    luxury: Names,
    money: Option<int>,
    tiles: Names)

  /** The `produces` object of a raw record. */
  datatype RawProduces = RawProduces(raw: Names, processed: Names, luxury: Names)

  /** One record of the fetched dataset (JSON keys `type`, `requires` and `produces` are `tileType`,
      `requirements` and `production` here). */
  datatype RawTile = RawTile(
    name: string,
    tileType: string,
    generation: string,
    description: Option<string>,
    requirements: Option<RawRequires>,
    production: Option<RawProduces>)

  /** The canonical tile: the record spread, with `requiresGoods` and `requiresOther`
      added and `produces` overwritten by a flat array. */
  datatype Tile = Tile(
    name: string,
    tileType: string,
    generation: string,
    description: Option<string>,
    requirements: RawRequires,
    requiresGoods: seq<string>,
    requiresOther: seq<string>,
    produces: seq<string>)

  /** An array literal of spread elements `[...a, ...b, ...]`: spreading a missing
      field throws, so the literal exists only when every part does. */
  function Spread(parts: seq<Names>): (r: Names)
    ensures r.Some? <==> forall i :: 0 <= i < |parts| ==> parts[i].Some?
  {
    if parts == [] then Some([])
    else match parts[0]
      case None => None
      case Some(first) =>
        match Spread(parts[1..])
        case None => None
        case Some(rest) => Some(first + rest)
  }

  /** The three categories spread in the order raw, processed, luxury. */
  lemma Spread3(a: Names, b: Names, c: Names)
    ensures Spread([a, b, c]) ==
      if a.Some? && b.Some? && c.Some? then Some(a.value + b.value + c.value) else None
  {
    assert [a, b, c][1..] == [b, c];
    assert [b, c][1..] == [c];
    assert [c][1..] == [];
    assert Spread([][..]) == Some([]);
    if c.Some? {
      assert c.value + [] == c.value;
    }
    assert Spread([c]) == if c.Some? then Some(c.value) else None;
    assert Spread([b, c]) == if b.Some? && c.Some? then Some(b.value + c.value) else None;
    if a.Some? && b.Some? && c.Some? {
      assert a.value + (b.value + c.value) == a.value + b.value + c.value;
    }
  }

  /** The test `tile.requires.money > 0`. */
  predicate PaysMoney(money: Option<int>)
  {
    money.Some? && money.value > 0
  }

  /** The currency entry `£${money}`. */
  function Currency(amount: int): (r: string)
    requires amount > 0
    ensures |r| >= 2 && r[0] == '£'
    ensures forall i :: 1 <= i < |r| ==> IsDigit(r[i])
  {
    "£" + Decimal(amount)
  }

  /** The currency entry can be read back: its digits give the amount. */
  lemma CurrencyRoundTrip(amount: int)
    requires amount > 0
    ensures DecimalValue(Currency(amount)[1..]) == amount
    ensures Currency(amount)[1] != '0'
  {
    assert Currency(amount)[1..] == Decimal(amount);
    DecimalRoundTrip(amount);
    DecimalNoLeadingZero(amount);
  }

  /** What the currency test pushes first: one entry, or nothing. */
  function CurrencyPart(money: Option<int>): seq<string>
  {
    if PaysMoney(money) then [Currency(money.value)] else []
  }

  /** `requiresOther`: at most one currency entry, then the tile requirements. */
  function RequiresOther(money: Option<int>, tiles: Names): (r: Names)
    ensures r.Some? <==> tiles.Some?
    ensures r.Some? ==> |r.value| == |tiles.value| + (if PaysMoney(money) then 1 else 0)
    ensures r.Some? ==> r.value[|r.value| - |tiles.value|..] == tiles.value
    ensures r.Some? && PaysMoney(money) ==> r.value[0] == Currency(money.value)
    ensures r.Some? && !PaysMoney(money) ==> r.value == tiles.value
  {
    match tiles
    case None => None
    case Some(ts) => Some(CurrencyPart(money) + ts)
  }

  /** The fields whose spreading must not throw. */
  ghost predicate WellFormed(t: RawTile)
  {
    t.requirements.Some? && t.production.Some? &&
    var req, prod := t.requirements.value, t.production.value;
    req.raw.Some? && req.processed.Some? && req.luxury.Some? && req.tiles.Some? &&
    prod.raw.Some? && prod.processed.Some? && prod.luxury.Some?
  }

  /** The normalising arrow function; `None` when it throws. */
  function Normalise(t: RawTile): (r: Option<Tile>)
    ensures r.Some? <==> WellFormed(t)
    ensures r.Some? ==>
      r.value.name == t.name && r.value.tileType == t.tileType &&
      r.value.generation == t.generation && r.value.description == t.description &&
      r.value.requirements == t.requirements.value
  {
    match t.requirements
    case None => None
    case Some(req) =>
      match t.production
      case None => None
      case Some(prod) =>
        Spread3(req.raw, req.processed, req.luxury);
        Spread3(prod.raw, prod.processed, prod.luxury);
        var goods := Spread([req.raw, req.processed, req.luxury]);
        var other := RequiresOther(req.money, req.tiles);
        var made := Spread([prod.raw, prod.processed, prod.luxury]);
        if goods.None? || other.None? || made.None? then None
        else Some(Tile(t.name, t.tileType, t.generation, t.description, req,
                       goods.value, other.value, made.value))
  }

  /** `requiresGoods` is the required raw, processed and luxury goods, in that order. */
  lemma NormaliseRequiresGoods(t: RawTile)
    requires WellFormed(t)
    ensures var req := t.requirements.value;
      Normalise(t).value.requiresGoods == req.raw.value + req.processed.value + req.luxury.value
  {
    var req := t.requirements.value;
    Spread3(req.raw, req.processed, req.luxury);
  }

  /** `produces` is the produced raw, processed and luxury goods, in that order. */
  lemma NormaliseProduces(t: RawTile)
    requires WellFormed(t)
    ensures var prod := t.production.value;
      Normalise(t).value.produces == prod.raw.value + prod.processed.value + prod.luxury.value
  {
    var prod := t.production.value;
    Spread3(prod.raw, prod.processed, prod.luxury);
  }

  /** `requiresOther` starts with the currency entry exactly when money is positive,
      and ends with the required tiles in their source order. */
  lemma NormaliseRequiresOther(t: RawTile)
    requires WellFormed(t)
    ensures var req, other := t.requirements.value, Normalise(t).value.requiresOther;
      other == (if PaysMoney(req.money) then [Currency(req.money.value)] else []) + req.tiles.value &&
      |other| == |req.tiles.value| + (if PaysMoney(req.money) then 1 else 0)
  {
  }

  /** A good is in `requiresGoods` exactly when it is in one of the three categories. */
  lemma NormaliseRequiresGoodsMembers(t: RawTile, g: string)
    requires WellFormed(t)
    ensures var req := t.requirements.value;
      g in Normalise(t).value.requiresGoods <==>
        g in req.raw.value || g in req.processed.value || g in req.luxury.value
  {
    NormaliseRequiresGoods(t);
  }

  /** Step-by-step construction of `requiresOther` by pushes onto a local array. */
  method BuildRequiresOther(money: Option<int>, tiles: Names) returns (r: Names)
    ensures r == RequiresOther(money, tiles)
  {
    var other: seq<string> := [];
    if money.Some? && money.value > 0 {
      other := other + [Currency(money.value)];
    }
    if tiles.None? {
      return None;
    }
    var ts := tiles.value;
    var i := 0;
    while i < |ts|
      invariant 0 <= i <= |ts|
      invariant other == CurrencyPart(money) + ts[..i]
    {
      other := other + [ts[i]];
      i := i + 1;
    }
    assert ts[..i] == ts;
    return Some(other);
  }

  /** One call of the arrow function, in the order the source evaluates it. */
  method NormaliseRecord(t: RawTile) returns (r: Option<Tile>)
    ensures r == Normalise(t)
  {
    if t.requirements.None? {
      return None;
    }
    var req := t.requirements.value;
    var goods := Spread([req.raw, req.processed, req.luxury]);
    if goods.None? {
      return None;
    }
    var other := BuildRequiresOther(req.money, req.tiles);
    if other.None? {
      return None;
    }
    if t.production.None? {
      return None;
    }
    var prod := t.production.value;
    var made := Spread([prod.raw, prod.processed, prod.luxury]);
    if made.None? {
      return None;
    }
    r := Some(Tile(t.name, t.tileType, t.generation, t.description, req,
                   goods.value, other.value, made.value));
  }

  /** `tilesArray.map(...)`: every record normalised, in order, or a throw. */
  function NormaliseAll(records: seq<RawTile>): (r: Option<seq<Tile>>)
    ensures r.Some? <==> forall i :: 0 <= i < |records| ==> WellFormed(records[i])
    ensures r.Some? ==> |r.value| == |records|
    ensures r.Some? ==> forall i :: 0 <= i < |records| ==> Some(r.value[i]) == Normalise(records[i])
  {
    if forall i :: 0 <= i < |records| ==> Normalise(records[i]).Some? then
      Some(seq(|records|, i requires 0 <= i < |records| => Normalise(records[i]).value))
    else
      None
  }

  /** The mapping loop: stops at the first record that throws. */
  method MapNormalise(records: seq<RawTile>) returns (r: Option<seq<Tile>>)
    ensures r == NormaliseAll(records)
  {
    var out: seq<Tile> := [];
    var i := 0;
    while i < |records|
      invariant 0 <= i <= |records|
      invariant |out| == i
      invariant forall k :: 0 <= k < i ==> Normalise(records[k]) == Some(out[k])
    {
      var tile := NormaliseRecord(records[i]);
      if tile.None? {
        return None;
      }
      out := out + [tile.value];
      i := i + 1;
    }
    assert out == seq(|records|, k requires 0 <= k < |records| => Normalise(records[k]).value);
    return Some(out);
  }
}
