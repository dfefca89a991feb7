/** What flows through the collector: tags, raw changes, groups, database operations and tables.
    Instants are integer microseconds of simulated time. */
module Facts {
  import opened Basics

  datatype Station = OP10 | OP20 | OP30

  datatype Tag =
    | CellState | CellMode | CellFault | CellOrigin
    | Good | Scrap | LastCycle | CycleTime | Heartbeat
    | StationState(st: Station) | StationFault(st: Station)
    | WeldCurrent | WeldPoints | WeldOk

  /** A tag carries an integer, a float or a boolean; conversions follow Python's. */
  datatype TagValue = I(i: int) | R(r: real) | B(b: bool)
  {
    /** `int(v)`: floats are truncated toward zero. */
    function ToInt(): int {
      match this
      case I(i) => i
      case R(r) => if r >= 0.0 then r.Floor else -((-r).Floor)
      case B(b) => if b then 1 else 0
    }

    function ToReal(): real {
      match this
      case I(i) => i as real
      case R(r) => r
      case B(b) => if b then 1.0 else 0.0
    }

    function ToBool(): bool {
      match this
      case I(i) => i != 0
      case R(r) => r != 0.0
      case B(b) => b
    }
  }

  datatype Change = Change(tag: Tag, value: TagValue, ts: int)

  type Values = map<Tag, TagValue>

  datatype Group = Group(ts: int, values: Values, late: bool)

  // ------------------------------------------------------------ domain vocabulary

  const PRODUCING := 1
  const PLANNED_STOP := 2
  const FAULT := 3
  const SETUP := 4
  const STARVED := 5
  const BLOCKED := 6
  const MANUAL := 7

  datatype Origin = AtStation(st: Station) | AtCell

  datatype Cause =
    | MechanicalBreakdown | ElectricalBreakdown | SetupAdjustment | ToolChange
    | MissingParts | DownstreamSaturation | QualityIssue | Other

  /** STATION_OF_ORIGIN; anything else is assigned to the cell. */
  function StationOfOrigin(origin: int): Origin {
    match origin
    case 10 => AtStation(OP10)
    case 20 => AtStation(OP20)
    case 30 => AtStation(OP30)
    case _ => AtCell
  }

  function CauseOfFault(code: int): Cause {
    match code
    case 101 => MissingParts
    case 102 | 203 | 204 | 303 => MechanicalBreakdown
    case 201 | 301 => QualityIssue
    case 202 | 302 => ElectricalBreakdown
    case _ => Other
  }

  /** `suggest_cause`: it raises for a state that is no CellState. */
  function SuggestCause(state: int, fault: int): Result<Option<Cause>> {
    if state == FAULT then Success(Some(CauseOfFault(fault)))
    else if state < 1 || 7 < state then Failure("not a CellState")
    else match state
      case 4 => Success(Some(ToolChange))
      case 5 => Success(Some(MissingParts))
      case 6 => Success(Some(DownstreamSaturation))
      case 7 => Success(Some(Other))
      case _ => Success(None)
  }

  // ------------------------------------------------------------ rows, keyed by source timestamp

  datatype CellRow = CellRow(state: int, fault: int, origin: int)

  datatype StationRow = StationRow(state: int, fault: int)

  datatype StopRow = StopRow(end: Option<int>, state: int, station: Origin, fault: int, cause: Option<Cause>)

  datatype CounterRow = CounterRow(good: int, scrap: int, cycle: real, lastCycle: real)

  datatype WeldRow = WeldRow(current: real, points: int, ok: bool)

  /** The tables. `state_events` has key (scope, ts): its CELL rows, the only ones with an origin,
      are `cell`, the others are `stations`. */
  datatype Db = Db(
    cell: map<int, CellRow>,
    stations: map<Station, map<int, StationRow>>,
    stops: map<int, StopRow>,
    counters: map<int, CounterRow>,
    welds: map<int, WeldRow>,
    gaps: map<int, Option<int>>,
    lastSeen: Option<int>)

  const EMPTY_DB := Db(map[], map[], map[], map[], map[], map[], None)

  datatype Op =
    | CellEvent(ts: int, event: CellRow)
    | StationEvent(st: Station, ts: int, reading: StationRow)
    | OpenStop(start: int, state: int, station: Origin, fault: int, cause: Option<Cause>)
    | CloseStop(start: int, end: int)
    | CounterSample(ts: int, counts: CounterRow)
    | WeldSample(ts: int, weld: WeldRow)
    | OpenGap(start: int)
    | CloseGap(start: int, end: int)
    | ClosedGap(start: int, end: int)
}
