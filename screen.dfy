/** The state of the map screen and the three ways it changes.

    The screen keeps four pieces of state: the displayed `region`, the
    user `marker`, the flag `onCurrentLocation` (the view is anchored to
    the user's position) and the live bike-station list `ubike`. Each
    handler of the screen is modelled here as a pure transition from one
    snapshot of that state to the next; the class in module MapScreen
    performs the same transitions in place. */
module Screen {

  /** A latitude/longitude pair, in degrees. */
  datatype Coord = Coord(latitude: real, longitude: real)

  /** The displayed map region: its centre and its angular spans. */
  datatype Region = Region(latitude: real, longitude: real, latitudeDelta: real, longitudeDelta: real)

  /** The single user marker: where it stands, its title and its description. */
  datatype UserMarker = UserMarker(coord: Coord, name: string, address: string)

  /** One record of the live bike-station feed. Counts are taken as numbers;
      the coordinates stay text, as the feed delivers them. */
  datatype UbikeSite = UbikeSite(sno: string, sna: string, sbi: int, tot: int, lat: string, lng: string, ar: string)

  /** What the permission prompt is followed by: a position read that
      either yields coordinates or rejects. */
  datatype PositionOutcome = Position(coords: Coord) | PositionError

  /** What the live-feed request ends with: a response body or a thrown error. */
  datatype FetchOutcome = Fetched(data: seq<UbikeSite>) | FetchThrew

  /** A snapshot of everything the handlers write. */
  datatype ScreenState = ScreenState(region: Region, marker: UserMarker, onCurrentLocation: bool, ubike: seq<UbikeSite>)

  /** A region report whose centre moved by at most this much on both axes is jitter. */
  const DRIFT_THRESHOLD: real := 0.0002

  /** The permission status that lets the location flow go on. */
  const GRANTED: string := "granted"

  const DEFAULT_LATITUDE: real := 25.041077
  const DEFAULT_LONGITUDE: real := 121.576102
  const DEFAULT_LATITUDE_DELTA: real := 0.02
  const DEFAULT_LONGITUDE_DELTA: real := 0.01
  const DEFAULT_MARKER_NAME: string := "國業里"
  const DEFAULT_MARKER_ADDRESS: string := "110台北市信義區福德街"

  function Abs(x: real): real {
    if x < 0.0 then -x else x
  }

  /** The centre of a region, as a coordinate. */
  function Centre(r: Region): Coord {
    Coord(r.latitude, r.longitude)
  }

  /** The reported region `rgn` moved away from `current` by more than the threshold on some axis. */
  predicate Moved(current: Region, rgn: Region) {
    Abs(rgn.latitude - current.latitude) > DRIFT_THRESHOLD || Abs(rgn.longitude - current.longitude) > DRIFT_THRESHOLD
  }

  /** The recenter control is drawn exactly when the view is not anchored. */
  predicate RecenterVisible(s: ScreenState) {
    !s.onCurrentLocation
  }

  /** The view shows the user marker at its centre. */
  predicate CentredOnMarker(s: ScreenState) {
    Centre(s.region) == s.marker.coord
  }

  /** The state the screen starts in. */
  function InitialState(): (r: ScreenState)
    ensures Centre(r.region) == Coord(DEFAULT_LATITUDE, DEFAULT_LONGITUDE)
    ensures r.region.latitudeDelta == DEFAULT_LATITUDE_DELTA && r.region.longitudeDelta == DEFAULT_LONGITUDE_DELTA
    ensures CentredOnMarker(r)
    ensures r.marker.name == DEFAULT_MARKER_NAME && r.marker.address == DEFAULT_MARKER_ADDRESS
    ensures !r.onCurrentLocation && RecenterVisible(r)
    ensures r.ubike == []
  {
    ScreenState(
      Region(DEFAULT_LATITUDE, DEFAULT_LONGITUDE, DEFAULT_LATITUDE_DELTA, DEFAULT_LONGITUDE_DELTA),
      UserMarker(Coord(DEFAULT_LATITUDE, DEFAULT_LONGITUDE), DEFAULT_MARKER_NAME, DEFAULT_MARKER_ADDRESS),
      false,
      [])
  }

  /** The map reports that it settled on `rgn`. Jitter is ignored; a real
      move is adopted as a whole and releases the anchor. */
  function RegionChanged(s: ScreenState, rgn: Region): (r: ScreenState)
    ensures !Moved(s.region, rgn) ==> r == s
    ensures Moved(s.region, rgn) ==> r.region == rgn && !r.onCurrentLocation && RecenterVisible(r)
    ensures r.marker == s.marker && r.ubike == s.ubike
    ensures r.onCurrentLocation ==> s.onCurrentLocation
  {
    if Moved(s.region, rgn) then s.(region := rgn, onCurrentLocation := false) else s
  }

  /** Moves the region centre and the user marker to `c`; the spans, the
      marker's title and description and everything else stay. */
  function Recentred(s: ScreenState, c: Coord): (r: ScreenState)
    ensures Centre(r.region) == c && r.marker.coord == c && CentredOnMarker(r)
    ensures r.region.latitudeDelta == s.region.latitudeDelta && r.region.longitudeDelta == s.region.longitudeDelta
    ensures r.marker.name == s.marker.name && r.marker.address == s.marker.address
    ensures r.onCurrentLocation == s.onCurrentLocation && r.ubike == s.ubike
  {
    s.(region := s.region.(latitude := c.latitude, longitude := c.longitude),
       marker := s.marker.(coord := c))
  }

  /** The location request ends with permission `status` and, when the
      position read is reached, `position`. Only a granted request whose
      read succeeds changes anything: it recentres and anchors the view. */
  function LocationResolved(s: ScreenState, status: string, position: PositionOutcome): (r: ScreenState)
    ensures status != GRANTED ==> r == s
    ensures position.PositionError? ==> r == s
    ensures status == GRANTED && position.Position? ==>
              && r.onCurrentLocation && !RecenterVisible(r) && CentredOnMarker(r)
              && r.marker.coord == position.coords
              && r.region.latitudeDelta == s.region.latitudeDelta
              && r.region.longitudeDelta == s.region.longitudeDelta
    ensures r.marker.name == s.marker.name && r.marker.address == s.marker.address
    ensures r.ubike == s.ubike
  {
    if status != GRANTED then s
    else match position
      case PositionError => s
      case Position(c) => Recentred(s, c).(onCurrentLocation := true)
  }

  /** The live-feed request ends with `outcome`: a response replaces the
      whole station list, a thrown error leaves the previous one. */
  function UbikeFetched(s: ScreenState, outcome: FetchOutcome): (r: ScreenState)
    ensures outcome.Fetched? ==> r.ubike == outcome.data
    ensures outcome.FetchThrew? ==> r == s
    ensures r.region == s.region && r.marker == s.marker && r.onCurrentLocation == s.onCurrentLocation
  {
    match outcome
    case Fetched(data) => s.(ubike := data)
    case FetchThrew => s
  }
}
