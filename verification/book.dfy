/**
 Reading an order book: the best prices on each side, the volume resting
 there, and the best-level volume imbalance.
 */
module Book {
  import opened DataModel

  // The two lemmas below make the witness of a non-empty set explicit: the
  // `:|` choices in `MaxExists`, `MinExists`, `MaxKey` and `MinKey` need an
  // existence fact, and the solver does not derive one from `s != {}` alone.

  /** A non-empty set has an element. */
  lemma NonEmptyHasElement(s: set<int>)
    requires s != {}
    ensures exists x :: x in s
  {
    if forall x :: x !in s { assert false; }
  }

  /** A non-empty map has a non-empty key set. */
  lemma NonEmptyKeys(m: map<int, int>)
    requires m != map[]
    ensures m.Keys != {}
  {
    if m.Keys == {} { assert false; }
  }

  /** Every non-empty finite set of integers has a greatest element. */
  lemma {:induction false} MaxExists(s: set<int>)
    requires s != {}
    ensures exists m :: m in s && forall k :: k in s ==> k <= m
    decreases |s|
  {
    NonEmptyHasElement(s);
    var x :| x in s;
    if s != {x} {
      var rest := s - {x};
      if rest == {} { assert false; }
      MaxExists(rest);
      var m :| m in rest && forall k :: k in rest ==> k <= m;
      if x <= m {
        assert forall k :: k in s ==> k <= m by {
          forall k | k in s ensures k <= m {
            if k != x { assert k in rest; }
          }
        }
      } else {
        assert forall k :: k in s ==> k <= x by {
          forall k | k in s ensures k <= x {
            if k != x { assert k in rest; }
          }
        }
      }
    } else {
      assert forall k :: k in s ==> k <= x;
    }
  }

  /** Every non-empty finite set of integers has a least element. */
  lemma {:induction false} MinExists(s: set<int>)
    requires s != {}
    ensures exists m :: m in s && forall k :: k in s ==> m <= k
    decreases |s|
  {
    NonEmptyHasElement(s);
    var x :| x in s;
    if s != {x} {
      var rest := s - {x};
      if rest == {} { assert false; }
      MinExists(rest);
      var m :| m in rest && forall k :: k in rest ==> m <= k;
      if m <= x {
        assert forall k :: k in s ==> m <= k by {
          forall k | k in s ensures m <= k {
            if k != x { assert k in rest; }
          }
        }
      } else {
        assert forall k :: k in s ==> x <= k by {
          forall k | k in s ensures x <= k {
            if k != x { assert k in rest; }
          }
        }
      }
    } else {
      assert forall k :: k in s ==> x <= k;
    }
  }

  /** Python's `max` over a dictionary's keys. */
  function MaxKey(s: set<int>): (r: int)
    requires s != {}
    ensures r in s
    ensures forall k :: k in s ==> k <= r
  {
    MaxExists(s);
    var m :| m in s && forall k :: k in s ==> k <= m; m
  }

  /** Python's `min` over a dictionary's keys. */
  function MinKey(s: set<int>): (r: int)
    requires s != {}
    ensures r in s
    ensures forall k :: k in s ==> r <= k
  {
    MinExists(s);
    var m :| m in s && forall k :: k in s ==> m <= k; m
  }

  /** The highest resting buy price. */
  function BestBid(d: OrderDepth): int
    requires d.buyOrders != map[]
  {
    NonEmptyKeys(d.buyOrders);
    MaxKey(d.buyOrders.Keys)
  }

  /** The lowest resting sell price. */
  function BestAsk(d: OrderDepth): int
    requires d.sellOrders != map[]
  {
    NonEmptyKeys(d.sellOrders);
    MinKey(d.sellOrders.Keys)
  }

  /** The best bid and the best ask, each absent when its side is empty. */
  function GetBestPrices(d: OrderDepth): (r: (Option<int>, Option<int>))
    ensures r.0 == None <==> d.buyOrders == map[]
    ensures r.1 == None <==> d.sellOrders == map[]
    ensures r.0.Some? ==> r.0.value in d.buyOrders && forall p :: p in d.buyOrders ==> p <= r.0.value
    ensures r.1.Some? ==> r.1.value in d.sellOrders && forall p :: p in d.sellOrders ==> r.1.value <= p
  {
    (if d.buyOrders == map[] then None else Some(BestBid(d)),
     if d.sellOrders == map[] then None else Some(BestAsk(d)))
  }

  /** Volume resting at the best bid; an empty side counts as no volume. */
  function BestBidVolume(d: OrderDepth): (v: int)
    ensures d.buyOrders == map[] ==> v == 0
    ensures d.buyOrders != map[] ==>
              exists p :: p in d.buyOrders && (forall q :: q in d.buyOrders ==> q <= p)
                          && v == d.buyOrders[p]
  {
    if d.buyOrders == map[] then 0
    else
      var p := BestBid(d);
      assert p in d.buyOrders && forall q :: q in d.buyOrders ==> q <= p;
      d.buyOrders[p]
  }

  /** Volume resting at the best ask; an empty side counts as no volume. */
  function BestAskVolume(d: OrderDepth): (v: int)
    ensures d.sellOrders == map[] ==> v == 0
    ensures d.sellOrders != map[] ==>
              exists p :: p in d.sellOrders && (forall q :: q in d.sellOrders ==> p <= q)
                          && v == d.sellOrders[p]
  {
    if d.sellOrders == map[] then 0
    else
      var p := BestAsk(d);
      assert p in d.sellOrders && forall q :: q in d.sellOrders ==> p <= q;
      d.sellOrders[p]
  }

  /** Normalised difference of two volumes, neutral when they cancel out.
      The quotient is exact: the floating-point rounding of the division is
      not modelled. */
  function VolumeImbalance(bidVol: int, askVol: int): (r: real)
    ensures bidVol + askVol == 0 ==> r == 0.0
    ensures bidVol + askVol != 0 ==> r * (bidVol + askVol) as real == (bidVol - askVol) as real
  {
    if bidVol + askVol == 0 then 0.0
    else (bidVol - askVol) as real / (bidVol + askVol) as real
  }

  /** The best-level volume imbalance of a book. */
  function ComputeImbalance(d: OrderDepth): (r: real)
    ensures BestBidVolume(d) + BestAskVolume(d) == 0 ==> r == 0.0
    ensures BestBidVolume(d) + BestAskVolume(d) != 0 ==>
              r * (BestBidVolume(d) + BestAskVolume(d)) as real
              == (BestBidVolume(d) - BestAskVolume(d)) as real
    ensures d.buyOrders == map[] && d.sellOrders == map[] ==> r == 0.0
  {
    VolumeImbalance(BestBidVolume(d), BestAskVolume(d))
  }

  /** Swapping the two volumes negates the imbalance. */
  lemma VolumeImbalanceAntisymmetric(bidVol: int, askVol: int)
    ensures VolumeImbalance(askVol, bidVol) == -VolumeImbalance(bidVol, askVol)
  {
    var t := bidVol + askVol;
    if t != 0 {
      var r := VolumeImbalance(bidVol, askVol);
      var q := VolumeImbalance(askVol, bidVol);
      assert q * t as real == -(r * t as real);
      assert (q + r) * t as real == 0.0;
    }
  }

  /** With non-negative volumes on both sides and some volume present the
      imbalance lies in [-1, 1]. This covers only books whose sell volumes are
      recorded as positive; see `VolumeImbalanceUnboundedForNegativeAsk` for
      the harness's convention. */
  lemma VolumeImbalanceBounded(bidVol: int, askVol: int)
    requires bidVol >= 0 && askVol >= 0 && bidVol + askVol > 0
    ensures -1.0 <= VolumeImbalance(bidVol, askVol) <= 1.0
  {
    var r := VolumeImbalance(bidVol, askVol);
    var t := (bidVol + askVol) as real;
    assert r * t == (bidVol - askVol) as real;
    ScaleStrict(r, 1.0, t);
    ScaleStrict(-1.0, r, t);
  }

  /** The 0.5 threshold in integer terms: when the total is positive the
      imbalance exceeds one half exactly when the bid volume is more than three
      times the ask volume; when the total is negative the comparison flips. */
  lemma VolumeImbalanceAboveHalf(bidVol: int, askVol: int)
    ensures bidVol + askVol > 0 ==> (VolumeImbalance(bidVol, askVol) > 0.5 <==> bidVol > 3 * askVol)
    ensures bidVol + askVol < 0 ==> (VolumeImbalance(bidVol, askVol) > 0.5 <==> bidVol < 3 * askVol)
    ensures bidVol + askVol == 0 ==> !(VolumeImbalance(bidVol, askVol) > 0.5)
  {
    var r := VolumeImbalance(bidVol, askVol);
    var t := (bidVol + askVol) as real;
    var h := (bidVol - askVol) as real;
    if t != 0.0 {
      HalfThreshold(r, t, h);
      assert 2.0 * h > t <==> 2 * (bidVol - askVol) > bidVol + askVol;
    }
  }

  /** Under the harness's convention of negative sell volumes the quotient is
      not bounded: 10 bid against -6 offered gives 4. */
  lemma VolumeImbalanceUnboundedForNegativeAsk()
    ensures VolumeImbalance(10, -6) == 4.0
  {
    assert 4.0 * (10 + -6) as real == (10 - -6) as real;
  }

  /** With a positive bid volume and a negative ask volume that do not cancel,
      the imbalance is always outside [-0.5, 0.5]: such a book never falls in
      the neutral band. */
  lemma OppositeSignVolumesNeverNeutral(bidVol: int, askVol: int)
    requires bidVol > 0 > askVol && bidVol + askVol != 0
    ensures VolumeImbalance(bidVol, askVol) > 0.5 || VolumeImbalance(bidVol, askVol) < -0.5
    ensures bidVol + askVol > 0 ==> VolumeImbalance(bidVol, askVol) > 0.5
    ensures bidVol + askVol < 0 ==> VolumeImbalance(bidVol, askVol) < -0.5
  {
    VolumeImbalanceAboveHalf(bidVol, askVol);
    VolumeImbalanceBelowMinusHalf(bidVol, askVol);
  }

  /** The mirror of `VolumeImbalanceAboveHalf` for the sell threshold. */
  lemma VolumeImbalanceBelowMinusHalf(bidVol: int, askVol: int)
    ensures bidVol + askVol > 0 ==> (VolumeImbalance(bidVol, askVol) < -0.5 <==> askVol > 3 * bidVol)
    ensures bidVol + askVol < 0 ==> (VolumeImbalance(bidVol, askVol) < -0.5 <==> askVol < 3 * bidVol)
    ensures bidVol + askVol == 0 ==> !(VolumeImbalance(bidVol, askVol) < -0.5)
  {
    VolumeImbalanceAntisymmetric(bidVol, askVol);
    VolumeImbalanceAboveHalf(askVol, bidVol);
  }

  /** A quotient `r = h / t` exceeds one half exactly when `2h` lies beyond
      `t` on the side given by the sign of `t`. */
  lemma HalfThreshold(r: real, t: real, h: real)
    requires t != 0.0 && r * t == h
    ensures t > 0.0 ==> (r > 0.5 <==> 2.0 * h > t)
    ensures t < 0.0 ==> (r > 0.5 <==> 2.0 * h < t)
  {
    if t > 0.0 {
      ScaleStrict(r, 0.5, t);
    } else {
      ScaleStrict(r, 0.5, -t);
      assert r * (-t) == -h;
    }
  }

  /** Multiplying by a positive factor preserves a strict order both ways. */
  lemma ScaleStrict(x: real, y: real, t: real)
    requires t > 0.0
    ensures x > y <==> x * t > y * t
  {
    if x > y {
      assert (x - y) * t > 0.0;
    } else {
      assert (y - x) * t >= 0.0;
    }
  }
}
