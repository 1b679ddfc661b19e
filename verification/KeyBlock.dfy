// Looking up a key block by its key height.
module KeyBlock {
  import opened Wrappers

  type Hash = nat

  const MEMPOOL_HEIGHT := 0x7fff_ffff

  // A main-chain block: the key height in its header, and whether its hash meets
  // the full difficulty target, which makes it a key block.
  datatype Block = Block(hash: Hash, keyHeight: int, isKey: bool)

  datatype Error = OutOfRange | NotFound

  // The key height goes up by one after each key block and only then.
  ghost predicate Valid(chain: seq<Block>) {
    && 0 < |chain| <= MEMPOOL_HEIGHT
    && chain[0].keyHeight == 0
    && forall i :: 0 <= i < |chain| - 1 ==>
         chain[i + 1].keyHeight == chain[i].keyHeight + if chain[i].isKey then 1 else 0
  }

  ghost predicate IsKeyBlockOf(chain: seq<Block>, h: int, keyHeight: int) {
    0 <= h < |chain| && chain[h].isKey && chain[h].keyHeight == keyHeight
  }

  function KeyHeightByHeight(chain: seq<Block>, height: int): Option<int> {
    if height == MEMPOOL_HEIGHT then Some(height)
    else if height == 0 then Some(0)
    else if 0 <= height < |chain| then Some(chain[height].keyHeight)
    else None
  }

  lemma {:induction false} KeyHeightsRise(chain: seq<Block>, i: nat, j: nat)
    requires Valid(chain) && i <= j < |chain|
    ensures 0 <= chain[i].keyHeight <= chain[j].keyHeight
    ensures i < j && chain[i].isKey ==> chain[i].keyHeight < chain[j].keyHeight
    decreases j
  {
    if i < j {
      KeyHeightsRise(chain, i, j - 1);
      assert chain[(j - 1) + 1].keyHeight ==
             chain[j - 1].keyHeight + if chain[j - 1].isKey then 1 else 0;
    } else if i > 0 {
      KeyHeightsRise(chain, i - 1, i - 1);
      assert chain[(i - 1) + 1].keyHeight ==
             chain[i - 1].keyHeight + if chain[i - 1].isKey then 1 else 0;
    }
  }

  // At most one key block has a given key height.
  lemma KeyBlockUnique(chain: seq<Block>, g: int, h: int, keyHeight: int)
    requires Valid(chain) && IsKeyBlockOf(chain, g, keyHeight) && IsKeyBlockOf(chain, h, keyHeight)
    ensures g == h
  {
    if g < h {
      KeyHeightsRise(chain, g, h);
    } else {
      KeyHeightsRise(chain, h, g);
    }
  }

  // Key heights move by at most one, so neighbours cannot straddle a value.
  lemma NoStraddle(chain: seq<Block>, i: nat, j: nat, keyHeight: int)
    requires Valid(chain) && i < j < |chain|
    requires chain[i].keyHeight < keyHeight < chain[j].keyHeight
    ensures i + 1 < j
  {
    assert chain[i + 1].keyHeight <= chain[i].keyHeight + 1;
  }

  // Some block at the wanted key height below the tip's.  Narrowing keeps the
  // lower end on target or below and the upper end above it; since key heights
  // move by at most one, neighbours cannot straddle the target, so the search
  // ends even though the lower end is not moved past the middle.
  method FindAny(chain: seq<Block>, keyHeight: int) returns (r: Option<int>)
    requires Valid(chain) && keyHeight < chain[|chain| - 1].keyHeight
    ensures r.Some? ==> 0 <= r.value < |chain| && chain[r.value].keyHeight == keyHeight
    ensures r.Some? <==> keyHeight >= 0
  {
    var start, end := 0, |chain| - 1;
    while true
      invariant 0 <= start <= end < |chain|
      invariant keyHeight >= 0 ==> chain[start].keyHeight <= keyHeight < chain[end].keyHeight
      invariant keyHeight < 0 ==> start == 0
      decreases end - start
    {
      if start == end {
        var k := KeyHeightByHeight(chain, start);
        if k.None? || k.value != keyHeight {
          KeyHeightsRise(chain, start, start);
          return None;
        }
        return Some(start);
      }
      var target := (start + end) / 2;
      var k := KeyHeightByHeight(chain, target);
      KeyHeightsRise(chain, target, target);
      if k.None? {
        return None;
      }
      if k.value < keyHeight {
        NoStraddle(chain, target, end, keyHeight);
        start := target;
        continue;
      }
      if k.value > keyHeight {
        end := target;
        continue;
      }
      return Some(target);
    }
  }

  // The hash of the key block with the given key height.
  method HandleGetKeyBlockHash(chain: seq<Block>, keyHeight: int) returns (r: Result<Hash, Error>)
    requires Valid(chain)
    ensures forall h :: IsKeyBlockOf(chain, h, keyHeight) ==> r == Ok(chain[h].hash)
    ensures r.Ok? ==> exists h :: IsKeyBlockOf(chain, h, keyHeight)
    ensures keyHeight > chain[|chain| - 1].keyHeight ==> r == Err(OutOfRange)
    ensures keyHeight == chain[|chain| - 1].keyHeight && !chain[|chain| - 1].isKey ==> r == Err(OutOfRange)
    ensures keyHeight < 0 ==> r == Err(NotFound)
  {
    var bestHeight := |chain| - 1;
    var bestKeyHeight := chain[bestHeight].keyHeight;
    KeyHeightsRise(chain, bestHeight, bestHeight);
    forall h | IsKeyBlockOf(chain, h, keyHeight)
      ensures 0 <= keyHeight <= bestKeyHeight && (keyHeight == bestKeyHeight ==> h == bestHeight)
    {
      KeyHeightsRise(chain, h, bestHeight);
    }
    if keyHeight > bestKeyHeight {
      return Err(OutOfRange);
    }
    if keyHeight == bestKeyHeight {
      if !chain[bestHeight].isKey {
        return Err(OutOfRange);
      }
      assert IsKeyBlockOf(chain, bestHeight, keyHeight);
      return Ok(chain[bestHeight].hash);
    }

    var found := FindAny(chain, keyHeight);
    if found.None? {
      return Err(NotFound);
    }
    var result := found.value;
    while true
      invariant 0 <= result < bestHeight && chain[result].keyHeight == keyHeight
      decreases bestHeight - result
    {
      result := result + 1;
      var k := KeyHeightByHeight(chain, result);
      if k.None? {
        return Err(NotFound);
      }
      if k.value > keyHeight {
        result := result - 1;
        break;
      }
      KeyHeightsRise(chain, result - 1, result);
    }
    assert IsKeyBlockOf(chain, result, keyHeight);
    forall h | IsKeyBlockOf(chain, h, keyHeight) ensures h == result {
      KeyBlockUnique(chain, h, result, keyHeight);
    }
    r := Ok(chain[result].hash);
  }
}
