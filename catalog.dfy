/** The module-level state of the viewer: `allTiles`, replaced by `loadTiles` and read
    by `applyFilters`. */
module Catalog {
  import opened Wrappers
  import opened Tiles
  import opened Filters

  /** What `allTiles` holds after a load from `prev`: the whole normalised dataset when
      the fetch succeeded and every record normalised, otherwise `prev`. */
  function Committed(prev: seq<Tile>, fetched: Option<seq<RawTile>>): (r: seq<Tile>)
    ensures r == prev || (fetched.Some? && NormaliseAll(fetched.value) == Some(r))
    ensures fetched.None? ==> r == prev
  {
    if fetched.Some? && NormaliseAll(fetched.value).Some? then NormaliseAll(fetched.value).value
    else prev
  }

  /** A load is all or nothing: a failed fetch or one malformed record leaves the tiles
      as they were; otherwise every record is normalised and the tiles are in dataset
      order. */
  lemma LoadAllOrNothing(prev: seq<Tile>, fetched: Option<seq<RawTile>>)
    ensures fetched.None? ==> Committed(prev, fetched) == prev
    ensures fetched.Some? && (exists i :: 0 <= i < |fetched.value| && !WellFormed(fetched.value[i]))
      ==> Committed(prev, fetched) == prev
    ensures fetched.Some? && (forall i :: 0 <= i < |fetched.value| ==> WellFormed(fetched.value[i]))
      ==> |Committed(prev, fetched)| == |fetched.value| &&
          forall i :: 0 <= i < |fetched.value| ==> Some(Committed(prev, fetched)[i]) == Normalise(fetched.value[i])
  {
  }

  class TileStore {
    var allTiles: seq<Tile>

    /** `let allTiles = [];` */
    constructor ()
      ensures allTiles == []
    {
      allTiles := [];
    }

    /** `loadTiles`, given the outcome of the fetch and of `res.json()` (`None` when the
        request failed, the status was not ok or the body was not JSON). Any throw lands
        in the catch, which only logs. */
    method Load(fetched: Option<seq<RawTile>>)
      modifies this
      ensures allTiles == Committed(old(allTiles), fetched)
    {
      if fetched.None? {
        return;
      }
      var mapped := MapNormalise(fetched.value);
      if mapped.None? {
        return;
      }
      allTiles := mapped.value;
    }

    /** `applyFilters` with the three input values as parameters; returns what is
        handed to `renderTiles`. */
    method ApplyFilters(search: string, tileType: string, generation: string)
      returns (filtered: seq<Tile>)
      ensures filtered == FilterTiles(allTiles, Criteria(search, tileType, generation))
    {
      var c := Criteria(search, tileType, generation);
      var tiles := allTiles;
      filtered := [];
      var i := 0;
      while i < |tiles|
        invariant 0 <= i <= |tiles|
        invariant FilterTiles(tiles, c) == filtered + FilterTiles(tiles[i..], c)
      {
        var x := tiles[i];
        assert tiles[i..] == [x] + tiles[i + 1..];
        FilterCons(x, tiles[i + 1..], c);
        if Keep(x, c) {
          assert filtered + ([x] + FilterTiles(tiles[i + 1..], c))
              == (filtered + [x]) + FilterTiles(tiles[i + 1..], c);
          filtered := filtered + [x];
        } else {
          assert [] + FilterTiles(tiles[i + 1..], c) == FilterTiles(tiles[i + 1..], c);
        }
        i := i + 1;
      }
      assert tiles[i..] == [];
    }
  }
}
