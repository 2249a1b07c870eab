/** The predicate of `applyFilters`: a tile is kept when it passes the search, type
    and generation checks; an empty criterion is skipped. */
module Filters {
  import opened Text
  import opened Tiles

  /** The three values read from the search box and the two select elements. */
  datatype Criteria = Criteria(search: string, tileType: string, generation: string)

  /** Reference meaning of the three checks, combined by AND. */
  ghost predicate MatchesSearch(t: Tile, search: string)
  {
    search == "" || IsSubstring(Lower(search), Lower(t.name))
  }

  ghost predicate MatchesType(t: Tile, tileType: string)
  {
    tileType == "" || IsSubstring(tileType, t.tileType)
  }

  ghost predicate MatchesGeneration(t: Tile, generation: string)
  {
    generation == "" || t.generation == generation
  }

  ghost predicate Satisfies(t: Tile, c: Criteria)
  {
    MatchesSearch(t, c.search) && MatchesType(t, c.tileType) && MatchesGeneration(t, c.generation)
  }

  /** The early-return checks of the `filter` callback, in source order. It keeps a
      tile exactly when the tile satisfies every non-empty criterion. */
  predicate Keep(t: Tile, c: Criteria)
    ensures Keep(t, c) <==> Satisfies(t, c)
  {
    IncludesIsSubstring(Lower(t.name), Lower(c.search));
    IncludesIsSubstring(t.tileType, c.tileType);
    var search := Lower(c.search);
    if search != "" && !Includes(Lower(t.name), search) then false
    else if c.tileType != "" && !Includes(t.tileType, c.tileType) then false
    else if c.generation != "" && t.generation != c.generation then false
    else true
  }

  /** The search ignores case on both sides: changing the case of letters in the
      search text or in the tile name does not change the verdict. */
  lemma KeepIgnoresCase(t: Tile, c: Criteria, name: string, search: string)
    requires Lower(name) == Lower(t.name) && Lower(search) == Lower(c.search)
    ensures Keep(t.(name := name), c.(search := search)) == Keep(t, c)
  {
  }

  /** In particular the search text may be given in any case. */
  lemma KeepLowerSearch(t: Tile, c: Criteria)
    ensures Keep(t, c.(search := Lower(c.search))) == Keep(t, c)
  {
    LowerIdempotent(c.search);
    KeepIgnoresCase(t, c, t.name, Lower(c.search));
  }

  /** `allTiles.filter(...)`. */
  function FilterTiles(ts: seq<Tile>, c: Criteria): (r: seq<Tile>)
    ensures |r| <= |ts|
    ensures forall t :: t in r ==> t in ts && Keep(t, c)
  {
    if ts == [] then []
    else (if Keep(ts[0], c) then [ts[0]] else []) + FilterTiles(ts[1..], c)
  }

  /** `a` is `b` with some elements removed, the rest in their original order. */
  ghost predicate IsSubsequence<T>(a: seq<T>, b: seq<T>)
    decreases |b|
  {
    if a == [] then true
    else if b == [] then false
    else (a[0] == b[0] && IsSubsequence(a[1..], b[1..])) || IsSubsequence(a, b[1..])
  }

  /** The result keeps the order of `allTiles`. */
  lemma {:induction false} FilterIsSubsequence(ts: seq<Tile>, c: Criteria)
    ensures IsSubsequence(FilterTiles(ts, c), ts)
  {
    if ts != [] {
      FilterIsSubsequence(ts[1..], c);
      var rest := FilterTiles(ts[1..], c);
      if Keep(ts[0], c) {
        assert ([ts[0]] + rest)[1..] == rest;
      } else {
        assert FilterTiles(ts, c) == rest;
      }
    }
  }

  /** Every tile that passes occurs as often as in `allTiles`; every other tile not at all. */
  lemma {:induction false} FilterCounts(ts: seq<Tile>, c: Criteria, t: Tile)
    ensures multiset(FilterTiles(ts, c))[t] == if Keep(t, c) then multiset(ts)[t] else 0
  {
    if ts != [] {
      FilterCounts(ts[1..], c, t);
      assert ts == [ts[0]] + ts[1..];
    }
  }

  /** A tile is in the result exactly when it is in `allTiles` and meets every active criterion. */
  lemma FilterMembership(ts: seq<Tile>, c: Criteria, t: Tile)
    ensures t in FilterTiles(ts, c) <==> t in ts && Satisfies(t, c)
  {
    FilterCounts(ts, c, t);
  }

  /** With every criterion empty the filter returns `allTiles` unchanged. */
  lemma {:induction false} FilterNoCriteria(ts: seq<Tile>)
    ensures FilterTiles(ts, Criteria("", "", "")) == ts
  {
    if ts != [] {
      FilterNoCriteria(ts[1..]);
    }
  }

  /** `c2` keeps every non-empty criterion of `c1` and may set criteria `c1` leaves empty. */
  predicate Narrows(c2: Criteria, c1: Criteria)
  {
    (c1.search == "" || c2.search == c1.search) &&
    (c1.tileType == "" || c2.tileType == c1.tileType) &&
    (c1.generation == "" || c2.generation == c1.generation)
  }

  lemma KeepNarrows(t: Tile, c1: Criteria, c2: Criteria)
    requires Narrows(c2, c1)
    ensures Keep(t, c2) ==> Keep(t, c1)
  {
  }

  /** Adding criteria never enlarges the result: it is a subsequence of the wider one. */
  lemma {:induction false} FilterMonotone(ts: seq<Tile>, c1: Criteria, c2: Criteria)
    requires Narrows(c2, c1)
    ensures IsSubsequence(FilterTiles(ts, c2), FilterTiles(ts, c1))
  {
    if ts != [] {
      FilterMonotone(ts[1..], c1, c2);
      KeepNarrows(ts[0], c1, c2);
      var wide, narrow := FilterTiles(ts[1..], c1), FilterTiles(ts[1..], c2);
      if Keep(ts[0], c2) {
        assert ([ts[0]] + narrow)[1..] == narrow;
        assert ([ts[0]] + wide)[1..] == wide;
      } else if Keep(ts[0], c1) {
        assert FilterTiles(ts, c2) == narrow;
        assert FilterTiles(ts, c1) == [ts[0]] + wide;
        SubsequenceOfTail(narrow, ts[0], wide);
      } else {
        assert FilterTiles(ts, c2) == narrow;
        assert FilterTiles(ts, c1) == wide;
      }
    }
  }

  lemma SubsequenceOfTail<T>(a: seq<T>, x: T, b: seq<T>)
    requires IsSubsequence(a, b)
    ensures IsSubsequence(a, [x] + b)
  {
  }

  /** One step of the filter on a sequence with a known first tile. */
  lemma FilterCons(x: Tile, rest: seq<Tile>, c: Criteria)
    ensures FilterTiles([x] + rest, c) == (if Keep(x, c) then [x] else []) + FilterTiles(rest, c)
  {
  }

  function SearchOnly(c: Criteria): Criteria { Criteria(c.search, "", "") }
  function TypeOnly(c: Criteria): Criteria { Criteria("", c.tileType, "") }
  function GenerationOnly(c: Criteria): Criteria { Criteria("", "", c.generation) }

  lemma KeepSplits(t: Tile, c: Criteria)
    ensures Keep(t, c) <==>
      Keep(t, SearchOnly(c)) && Keep(t, TypeOnly(c)) && Keep(t, GenerationOnly(c))
  {
  }

  /** The three checks compose by AND: filtering by all of them equals filtering by
      each one in turn. */
  lemma {:induction false} FilterAndComposition(ts: seq<Tile>, c: Criteria)
    ensures FilterTiles(ts, c) ==
      FilterTiles(FilterTiles(FilterTiles(ts, SearchOnly(c)), TypeOnly(c)), GenerationOnly(c))
  {
    if ts != [] {
      var x := ts[0];
      FilterAndComposition(ts[1..], c);
      KeepSplits(x, c);
      var s := FilterTiles(ts[1..], SearchOnly(c));
      var st := FilterTiles(s, TypeOnly(c));
      if Keep(x, SearchOnly(c)) {
        assert FilterTiles(ts, SearchOnly(c)) == [x] + s;
        FilterCons(x, s, TypeOnly(c));
        if Keep(x, TypeOnly(c)) {
          assert FilterTiles([x] + s, TypeOnly(c)) == [x] + st;
          FilterCons(x, st, GenerationOnly(c));
        } else {
          assert FilterTiles([x] + s, TypeOnly(c)) == st;
        }
      } else {
        assert FilterTiles(ts, SearchOnly(c)) == s;
      }
    }
  }

  /** Filtering twice by the same criteria changes nothing. */
  lemma {:induction false} FilterIdempotent(ts: seq<Tile>, c: Criteria)
    ensures FilterTiles(FilterTiles(ts, c), c) == FilterTiles(ts, c)
  {
    if ts != [] {
      FilterIdempotent(ts[1..], c);
      var rest := FilterTiles(ts[1..], c);
      if Keep(ts[0], c) {
        assert FilterTiles(ts, c) == [ts[0]] + rest;
        FilterCons(ts[0], rest, c);
      } else {
        assert FilterTiles(ts, c) == rest;
      }
    }
  }
}
