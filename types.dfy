/** Values shared by the decision engine of the dual smart thermostat and by its
    stateful wrapper: operating modes, actuators, the command log entries, the
    fixed configuration and the snapshot of everything the thermostat mutates. */
module Types {

  datatype Option<+T> = None | Some(value: T)

  /** Home Assistant's climate modes. This thermostat acts on the first four; the
      others can be requested by a caller but are not recognised by it. */
  datatype HvacMode = Off | Heat | Cool | HeatCool | Auto | Dry | FanOnly

  /** The three switch entities the thermostat drives. */
  datatype Device = Heater | AuxHeater | Cooler

  /** One service call issued to the host: turn a switch entity on or off. */
  datatype Command = SwitchOn(device: Device) | SwitchOff(device: Device)

  /** Which actuator's bound drives the heat-cool decision. */
  datatype ToleranceDevice = HeaterBound | CoolerBound | AutoBound

  /** The climate entity feature flags the thermostat sets, one bit each. */
  datatype Features = Features(
    targetTemperature: bool,
    targetTemperatureRange: bool,
    presetMode: bool,
    auxHeat: bool,
    turnOff: bool)

  /** What can go wrong in one request. `UnsupportedPreset` is the rejected
      preset name; `MissingPresetEntry` is the failed lookup of a name in the
      presets of the current mode; `MissingTemperature` is the comparison of an unknown
      current or target temperature inside a controller. */
  datatype Error = UnsupportedPreset(name: string) | MissingPresetEntry(name: string) | MissingTemperature

  /** A sensor report: no state / unavailable, a state that is not a finite
      number, or a finite reading. */
  datatype Reading = Unavailable | NotFinite | Finite(value: real)

  /** A window or door sensor report: no state / unavailable / unknown, open
      (reported as "open" or "on"), or any other state. */
  datatype OpeningReport = Unreported | Opened | Closed

  /** Facts the controller reads from the host during one control step. */
  datatype Env = Env(
    anyOpeningOpen: bool,       // the opening registry reports an open window or door
    heaterRanLongEnough: bool,  // the heater has held its current state for the minimum cycle
    coolerRanLongEnough: bool,  // the cooler has held its current state for the minimum cycle
    firstStageTimedOut: bool,   // the heater has been on for the aux heater timeout
    today: int)                 // the current date as a day number

  const PresetNone: string := "none"

  /** One-degree step used when range defaults are derived from a single target. */
  const PrecisionWhole: real := 1.0

  /** The host's fallback bounds when none are configured (degrees Celsius). */
  const DefaultMinTemp: real := 7.0
  const DefaultMaxTemp: real := 35.0

  /** The configuration fixed when the thermostat is created. An entity that is
      not configured is a `false` flag; the heater entity is mandatory. */
  datatype Config = Config(
    hasAuxHeater: bool,
    auxTimeoutSet: bool,            // a secondary heater timeout is configured (even zero)
    auxDualMode: bool,
    hasCooler: bool,
    hasFloorSensor: bool,
    minTemp: Option<real>,
    maxTemp: Option<real>,
    maxFloorTemp: Option<real>,
    minFloorTemp: Option<real>,
    acMode: bool,
    heatCoolMode: bool,
    minCycleSeconds: Option<nat>,   // the minimum cycle duration, if configured
    coldTolerance: real,
    hotTolerance: real,
    presets: seq<(string, real)>,           // preset name and its single target
    presetsRange: seq<(string, (real, real))>)  // preset name and its (low, high) pair

  /** Everything the thermostat updates in place, as one value. */
  datatype Thermo = Thermo(
    curTemp: Option<real>,
    curFloorTemp: Option<real>,
    targetTemp: Option<real>,
    targetLow: Option<real>,
    targetHigh: Option<real>,
    savedTarget: Option<real>,
    savedLow: Option<real>,
    savedHigh: Option<real>,
    presetMode: string,
    active: bool,
    hvacMode: Option<HvacMode>,
    features: Features,
    heaterOn: bool,
    auxOn: bool,
    coolerOn: bool,
    auxLastRun: Option<int>,
    log: seq<Command>)

  /** The result of one request: the new state and the error it raised, if any.
      A raised error leaves in place whatever was changed before it. */
  datatype Reply = Reply(state: Thermo, error: Option<Error>)
}
