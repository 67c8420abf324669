/** The map screen as an object whose handlers overwrite its state fields.

    Each method performs one handler of the screen as one atomic step; its
    contract gives the new value of every field and ties the resulting
    snapshot to the matching transition of module Screen, whose properties
    are proved there and in module ScreenRuns. */
module MapScreen {
  import opened Screen

  class App {
    var region: Region
    var marker: UserMarker
    var onCurrentLocation: bool
    var ubike: seq<UbikeSite>

    /** The current fields as a value. */
    function State(): ScreenState
      reads this
    {
      ScreenState(region, marker, onCurrentLocation, ubike)
    }

    constructor ()
      ensures region == Region(DEFAULT_LATITUDE, DEFAULT_LONGITUDE, DEFAULT_LATITUDE_DELTA, DEFAULT_LONGITUDE_DELTA)
      ensures marker == UserMarker(Coord(DEFAULT_LATITUDE, DEFAULT_LONGITUDE), DEFAULT_MARKER_NAME, DEFAULT_MARKER_ADDRESS)
      ensures !onCurrentLocation && ubike == []
      ensures State() == InitialState()
    {
      region := Region(DEFAULT_LATITUDE, DEFAULT_LONGITUDE, DEFAULT_LATITUDE_DELTA, DEFAULT_LONGITUDE_DELTA);
      marker := UserMarker(Coord(DEFAULT_LATITUDE, DEFAULT_LONGITUDE), DEFAULT_MARKER_NAME, DEFAULT_MARKER_ADDRESS);
      onCurrentLocation := false;
      ubike := [];
    }

    /** The map settled on `rgn`. */
    method OnRegionChangeComplete(rgn: Region)
      modifies this
      ensures !Moved(old(region), rgn) ==> unchanged(this)
      ensures Moved(old(region), rgn) ==> region == rgn && !onCurrentLocation
      ensures marker == old(marker) && ubike == old(ubike)
      ensures State() == RegionChanged(old(State()), rgn)
    {
      if Abs(rgn.latitude - region.latitude) > DRIFT_THRESHOLD || Abs(rgn.longitude - region.longitude) > DRIFT_THRESHOLD {
        region := rgn;
        onCurrentLocation := false;
      }
    }

    /** Moves the region centre and the marker to `location`, keeping the
        spans and the marker's title and description. */
    method SetRegionAndMarker(location: Coord)
      modifies this
      ensures region == old(region).(latitude := location.latitude, longitude := location.longitude)
      ensures marker == old(marker).(coord := location)
      ensures onCurrentLocation == old(onCurrentLocation) && ubike == old(ubike)
      ensures State() == Recentred(old(State()), location)
    {
      region := region.(longitude := location.longitude, latitude := location.latitude);
      marker := marker.(coord := Coord(location.latitude, location.longitude));
    }

    /** The location flow: the permission prompt answered `status` and, if
        it was granted, the position read ended with `position`. A denied
        prompt or a rejected read returns before any field is written. */
    method GetLocation(status: string, position: PositionOutcome)
      modifies this
      ensures status != GRANTED || position.PositionError? ==> unchanged(this)
      ensures status == GRANTED && position.Position? ==>
                && region == old(region).(latitude := position.coords.latitude, longitude := position.coords.longitude)
                && marker == old(marker).(coord := position.coords)
                && onCurrentLocation
      ensures ubike == old(ubike)
      ensures State() == LocationResolved(old(State()), status, position)
    {
      if status != GRANTED {
        return;
      }
      match position {
        case PositionError =>
          return;
        case Position(location) =>
          SetRegionAndMarker(location);
          onCurrentLocation := true;
      }
    }

    /** The live-feed request ended with `outcome`. */
    method GetUbikeAsync(outcome: FetchOutcome)
      modifies this
      ensures outcome.Fetched? ==> ubike == outcome.data
      ensures outcome.FetchThrew? ==> unchanged(this)
      ensures region == old(region) && marker == old(marker) && onCurrentLocation == old(onCurrentLocation)
      ensures State() == UbikeFetched(old(State()), outcome)
    {
      match outcome {
        case Fetched(data) =>
          ubike := data;
        case FetchThrew =>
      }
    }
  }
}
