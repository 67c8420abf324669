/** Sequences of handler completions, and what holds after any of them.

    Each completed handler is an event; the screen's state after a
    sequence of events is the fold of the transitions of module Screen
    over it. The lemmas here state what the screen keeps true over every
    such sequence: the anchored view is centred on the user marker, only a
    successful location read anchors it, the marker's title never changes,
    spans come only from the map's own reports, and the station list is
    the body of the latest response. */
module ScreenRuns {
  import opened Screen

  /** One completed handler of the screen. */
  datatype Event =
    | RegionChangeComplete(rgn: Region)
    | LocationRequested(status: string, position: PositionOutcome)
    | UbikeResponse(outcome: FetchOutcome)

  function Step(s: ScreenState, e: Event): ScreenState {
    match e
    case RegionChangeComplete(rgn) => RegionChanged(s, rgn)
    case LocationRequested(status, position) => LocationResolved(s, status, position)
    case UbikeResponse(outcome) => UbikeFetched(s, outcome)
  }

  /** The state after the events `es`, in order, starting from `s`. */
  function Run(s: ScreenState, es: seq<Event>): ScreenState
    decreases |es|
  {
    if es == [] then s else Run(Step(s, es[0]), es[1..])
  }

  /** The event is a location request that was granted and read a position. */
  predicate Locates(e: Event) {
    e.LocationRequested? && e.status == GRANTED && e.position.Position?
  }

  /** The event is a map report that carries the spans `latDelta`, `lngDelta`. */
  predicate ReportsSpans(e: Event, latDelta: real, lngDelta: real) {
    e.RegionChangeComplete? && e.rgn.latitudeDelta == latDelta && e.rgn.longitudeDelta == lngDelta
  }

  /** The body of the last response among `es`, if any arrived. */
  function LatestResponse(es: seq<Event>): (r: FetchOutcome)
    decreases |es|
  {
    if es == [] then FetchThrew
    else if es[|es| - 1].UbikeResponse? && es[|es| - 1].outcome.Fetched? then es[|es| - 1].outcome
    else LatestResponse(es[..|es| - 1])
  }

  /** An anchored view shows the user marker at its centre. */
  predicate AnchoredOnMarker(s: ScreenState) {
    s.onCurrentLocation ==> CentredOnMarker(s)
  }

  /** Every handler keeps an anchored view centred on the user marker. */
  lemma StepKeepsAnchoredOnMarker(s: ScreenState, e: Event)
    requires AnchoredOnMarker(s)
    ensures AnchoredOnMarker(Step(s, e))
  {
  }

  lemma {:induction false} RunKeepsAnchoredOnMarker(s: ScreenState, es: seq<Event>)
    requires AnchoredOnMarker(s)
    ensures AnchoredOnMarker(Run(s, es))
    decreases |es|
  {
    if es != [] {
      StepKeepsAnchoredOnMarker(s, es[0]);
      RunKeepsAnchoredOnMarker(Step(s, es[0]), es[1..]);
    }
  }

  /** From startup on, whenever the view is anchored it is centred on the
      user marker, and the recenter control is hidden exactly then. */
  lemma ReachableAnchoredOnMarker(es: seq<Event>)
    ensures var s := Run(InitialState(), es);
            s.onCurrentLocation ==> CentredOnMarker(s) && !RecenterVisible(s)
  {
    RunKeepsAnchoredOnMarker(InitialState(), es);
  }

  /** An anchored view at the end of a run was either anchored at its start
      or anchored by a granted location request that read a position. */
  lemma {:induction false} AnchoringNeedsLocation(s: ScreenState, es: seq<Event>)
    ensures Run(s, es).onCurrentLocation ==>
              s.onCurrentLocation || exists i :: 0 <= i < |es| && Locates(es[i])
    decreases |es|
  {
    if es != [] {
      AnchoringNeedsLocation(Step(s, es[0]), es[1..]);
      if Run(s, es).onCurrentLocation && !s.onCurrentLocation {
        if Step(s, es[0]).onCurrentLocation {
          assert Locates(es[0]);
        } else {
          var i :| 0 <= i < |es[1..]| && Locates(es[1..][i]);
          assert Locates(es[i + 1]);
        }
      }
    }
  }

  /** No handler ever changes the user marker's title or description. */
  lemma {:induction false} RunKeepsMarkerLabel(s: ScreenState, es: seq<Event>)
    ensures Run(s, es).marker.name == s.marker.name
    ensures Run(s, es).marker.address == s.marker.address
    decreases |es|
  {
    if es != [] {
      RunKeepsMarkerLabel(Step(s, es[0]), es[1..]);
    }
  }

  /** The spans of the region after a run are the ones it started with or
      the ones of a region the map reported during the run: a location
      read never changes them. */
  lemma {:induction false} SpansComeFromReports(s: ScreenState, es: seq<Event>)
    ensures var r := Run(s, es).region;
            || (r.latitudeDelta == s.region.latitudeDelta && r.longitudeDelta == s.region.longitudeDelta)
            || exists i :: 0 <= i < |es| && ReportsSpans(es[i], r.latitudeDelta, r.longitudeDelta)
    decreases |es|
  {
    if es != [] {
      var t := Step(s, es[0]);
      var r := Run(s, es).region;
      SpansComeFromReports(t, es[1..]);
      if r.latitudeDelta == t.region.latitudeDelta && r.longitudeDelta == t.region.longitudeDelta {
        if !(r.latitudeDelta == s.region.latitudeDelta && r.longitudeDelta == s.region.longitudeDelta) {
          assert ReportsSpans(es[0], r.latitudeDelta, r.longitudeDelta);
        }
      } else {
        var i :| 0 <= i < |es[1..]| && ReportsSpans(es[1..][i], r.latitudeDelta, r.longitudeDelta);
        assert ReportsSpans(es[i + 1], r.latitudeDelta, r.longitudeDelta);
      }
    }
  }

  /** Running a sequence and then one more event is running the longer sequence. */
  lemma {:induction false} RunSnoc(s: ScreenState, es: seq<Event>, e: Event)
    ensures Run(s, es + [e]) == Step(Run(s, es), e)
    decreases |es|
  {
    if es == [] {
      assert [] + [e] == [e];
    } else {
      assert (es + [e])[0] == es[0];
      assert (es + [e])[1..] == es[1..] + [e];
      RunSnoc(Step(s, es[0]), es[1..], e);
    }
  }

  /** The station list after a run is the body of the latest response of
      the run, or the list it started with when every request threw. */
  lemma {:induction false} StationsAreLatestResponse(s: ScreenState, es: seq<Event>)
    ensures Run(s, es).ubike == match LatestResponse(es)
                                case Fetched(data) => data
                                case FetchThrew => s.ubike
    decreases |es|
  {
    if es != [] {
      var init := es[..|es| - 1];
      var last := es[|es| - 1];
      assert es == init + [last];
      RunSnoc(s, init, last);
      StationsAreLatestResponse(s, init);
    }
  }

  /** The `j`-th event of `es`, run from `s`, is a map report that moved
      the view it was delivered to. */
  predicate Releases(s: ScreenState, es: seq<Event>, j: int) {
    && 0 <= j < |es|
    && es[j].RegionChangeComplete?
    && Moved(Run(s, es[..j]).region, es[j].rgn)
  }

  /** Some event of `es` from index `i` on is a report that moved the view. */
  ghost predicate ReleasedFrom(s: ScreenState, es: seq<Event>, i: int) {
    exists j :: i <= j < |es| && Releases(s, es, j)
  }

  /** The view was anchored at the start and no report moved it since, or
      some successful location read was followed by no report that moved it. */
  ghost predicate AnchoredBy(s: ScreenState, es: seq<Event>) {
    || (s.onCurrentLocation && !ReleasedFrom(s, es, 0))
    || exists i :: 0 <= i < |es| && Locates(es[i]) && !ReleasedFrom(s, es, i + 1)
  }

  /** The anchored flag after a run is true exactly when a successful
      location read (or the starting state) anchored the view and no later
      map report moved it. */
  lemma {:induction false} AnchoredExactlyWhen(s: ScreenState, es: seq<Event>)
    ensures Run(s, es).onCurrentLocation <==> AnchoredBy(s, es)
    decreases |es|
  {
    if es != [] {
      var pre, e := es[..|es| - 1], es[|es| - 1];
      assert es == pre + [e];
      RunSnoc(s, pre, e);
      AnchoredExactlyWhen(s, pre);
      var n := |pre|;
      assert es[..n] == pre;
      forall j | 0 <= j < n
        ensures Releases(s, es, j) <==> Releases(s, pre, j)
      {
        assert es[..j] == pre[..j];
      }
      if Locates(e) {
        assert !ReleasedFrom(s, es, n + 1);
        assert AnchoredBy(s, es);
      } else if Releases(s, es, n) {
        assert !Run(s, es).onCurrentLocation;
        assert ReleasedFrom(s, es, 0);
        forall i | 0 <= i < |es| && Locates(es[i])
          ensures ReleasedFrom(s, es, i + 1)
        {
          assert i < n;
        }
      } else {
        assert Run(s, es).onCurrentLocation == Run(s, pre).onCurrentLocation;
        forall k | 0 <= k <= n
          ensures ReleasedFrom(s, es, k) <==> ReleasedFrom(s, pre, k)
        {
          if ReleasedFrom(s, es, k) {
            var j :| k <= j < |es| && Releases(s, es, j);
            assert j < n;
          }
          if ReleasedFrom(s, pre, k) {
            var j :| k <= j < |pre| && Releases(s, pre, j);
            assert Releases(s, es, j);
          }
        }
        if AnchoredBy(s, es) && !(s.onCurrentLocation && !ReleasedFrom(s, es, 0)) {
          var i :| 0 <= i < |es| && Locates(es[i]) && !ReleasedFrom(s, es, i + 1);
          assert i < n && Locates(pre[i]);
        }
        if AnchoredBy(s, pre) && !(s.onCurrentLocation && !ReleasedFrom(s, pre, 0)) {
          var i :| 0 <= i < |pre| && Locates(pre[i]) && !ReleasedFrom(s, pre, i + 1);
          assert Locates(es[i]);
        }
      }
    }
  }

  /** From startup, the recenter control is shown exactly when every
      successful location read was followed by a map report that moved the
      view (in particular, before any read succeeds). */
  lemma RecenterVisibleExactlyWhen(es: seq<Event>)
    ensures RecenterVisible(Run(InitialState(), es)) <==>
              forall i :: 0 <= i < |es| && Locates(es[i]) ==> ReleasedFrom(InitialState(), es, i + 1)
  {
    AnchoredExactlyWhen(InitialState(), es);
  }

  /** Delivering the same event twice has the effect of delivering it once;
      in particular the map re-reporting the region it just settled on is
      ignored. */
  lemma StepIdempotent(s: ScreenState, e: Event)
    ensures Step(Step(s, e), e) == Step(s, e)
  {
  }

  /** The location request and the live-feed request touch disjoint state,
      so the order in which they complete does not matter. */
  lemma LocationAndFetchCommute(s: ScreenState, status: string, position: PositionOutcome, outcome: FetchOutcome)
    ensures UbikeFetched(LocationResolved(s, status, position), outcome)
         == LocationResolved(UbikeFetched(s, outcome), status, position)
  {
  }
}
