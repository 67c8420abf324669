/** The two pie slices drawn on every live bike-station marker.

    For a station with `sbi` bikes present out of `tot` docks, the first
    slice stands for the empty docks and the second for the bikes; the
    `y` values are percentages of the whole. The division is not guarded,
    so a station with no docks is outside the model. */
module UbikePie {
  import opened Screen

  datatype Slice = Slice(x: int, y: real)

  /** The percentage of docks holding a bike. */
  function BikeShare(sbi: int, tot: int): real
    requires tot != 0
  {
    (sbi as real / tot as real) * 100.0
  }

  /** The chart data of one station: empty docks first, then bikes. */
  function PieSlices(sbi: int, tot: int): (r: (Slice, Slice))
    requires tot != 0
    ensures r.0.x + r.1.x == tot
    ensures r.0.y + r.1.y == 100.0
    ensures r.1.x == sbi && r.1.y * tot as real == sbi as real * 100.0
    ensures 0 <= sbi <= tot ==> 0.0 <= r.0.y <= 100.0 && 0.0 <= r.1.y <= 100.0
    ensures tot > 0 ==> (0.0 <= r.1.y <= 100.0 <==> 0 <= sbi <= tot)
  {
    var share := BikeShare(sbi, tot);
    ShareBounds(sbi, tot);
    (Slice(tot - sbi, 100.0 - share), Slice(sbi, share))
  }

  /** A station's bike share lies in [0, 100] exactly when its count of
      bikes lies in [0, tot]. */
  lemma ShareBounds(sbi: int, tot: int)
    requires tot != 0
    ensures BikeShare(sbi, tot) * tot as real == sbi as real * 100.0
    ensures 0 <= sbi <= tot ==> 0.0 <= BikeShare(sbi, tot) <= 100.0
    ensures tot > 0 ==> (0.0 <= BikeShare(sbi, tot) <= 100.0 <==> 0 <= sbi <= tot)
  {
    var q := sbi as real / tot as real;
    assert q * tot as real == sbi as real;
    if tot > 0 {
      if 0 <= sbi <= tot {
        assert 0.0 <= q <= 1.0;
      }
      if 0.0 <= q <= 1.0 {
        assert 0.0 <= q * tot as real <= tot as real;
      }
    }
  }

  /** The chart data of every station in the live list, in list order. */
  function PieData(stations: seq<UbikeSite>): (r: seq<(Slice, Slice)>)
    requires forall i :: 0 <= i < |stations| ==> stations[i].tot != 0
    ensures |r| == |stations|
    ensures forall i :: 0 <= i < |r| ==> r[i] == PieSlices(stations[i].sbi, stations[i].tot)
    ensures forall i :: 0 <= i < |r| ==> r[i].0.x + r[i].1.x == stations[i].tot && r[i].0.y + r[i].1.y == 100.0
    ensures forall i :: 0 <= i < |r| ==> r[i].1.x == stations[i].sbi
    ensures forall i :: 0 <= i < |r| && 0 <= stations[i].sbi <= stations[i].tot ==>
              0.0 <= r[i].0.y <= 100.0 && 0.0 <= r[i].1.y <= 100.0
    decreases |stations|
  {
    if stations == [] then []
    else [PieSlices(stations[0].sbi, stations[0].tot)] + PieData(stations[1..])
  }
}
