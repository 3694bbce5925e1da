/** The decision engine of DualSmartThermostat as functions over a `Thermo`
    snapshot: the tolerance, floor and cycle predicates, the guarded actuator
    helpers, the three mode controllers and their dispatcher, and the setpoint,
    preset, default-temperature and feature-flag bookkeeping. The class in
    module Thermostat performs these same steps in place; each of its methods is
    proved equal to the function here of the same name. */
module Engine {
  import opened Types

  // ---------------------------------------------------------------------------
  // Configuration readers

  /** Readings the host reports for switch entities: the auxiliary heater and
      the cooler read as off when they are not configured. */
  function IsAuxHeat(cfg: Config, auxOn: bool): bool { cfg.hasAuxHeater && auxOn }

  function IsCoolerActive(cfg: Config, coolerOn: bool): bool { cfg.hasCooler && coolerOn }

  function IsDeviceActive(cfg: Config, s: Thermo): bool
  {
    s.heaterOn || IsAuxHeat(cfg, s.auxOn) || IsCoolerActive(cfg, s.coolerOn)
  }

  /** Staging to the auxiliary heater needs both its entity and its timeout. */
  function AuxHeatingConfigured(cfg: Config): bool { cfg.hasAuxHeater && cfg.auxTimeoutSet }

  /** The minimum cycle is enforced only when it is configured and non-zero. */
  function CycleGuardOn(cfg: Config): bool
  {
    cfg.minCycleSeconds.Some? && cfg.minCycleSeconds.value > 0
  }

  function MinTemp(cfg: Config): real
  {
    if cfg.minTemp.Some? then cfg.minTemp.value else DefaultMinTemp
  }

  function MaxTemp(cfg: Config): real
  {
    if cfg.maxTemp.Some? then cfg.maxTemp.value else DefaultMaxTemp
  }

  /** Heat-cool is available when configured, or when both range bounds are known. */
  function ConfiguredForHeatCool(cfg: Config, low: Option<real>, high: Option<real>): bool
  {
    cfg.heatCoolMode || (high.Some? && low.Some?)
  }

  /** Target mode: the single-setpoint flag without the range flag. */
  predicate IsTargetMode(features: Features)
  {
    features.targetTemperature && !features.targetTemperatureRange
  }

  predicate IsRangeMode(features: Features)
  {
    features.targetTemperatureRange
  }

  /** The value stored under `name` in a list of preset entries: the first
      entry with that name, or None when no entry has it (see `LookupFindsFirst`). */
  function Lookup<V>(entries: seq<(string, V)>, name: string): (r: Option<V>)
    ensures r.Some? ==> |entries| > 0
  {
    if |entries| == 0 then None
    else if entries[0].0 == name then Some(entries[0].1)
    else Lookup(entries[1..], name)
  }

  lemma {:induction false} LookupFindsFirst<V>(entries: seq<(string, V)>, name: string)
    ensures Lookup(entries, name).None? <==> forall i :: 0 <= i < |entries| ==> entries[i].0 != name
    ensures Lookup(entries, name).Some? ==>
              exists i :: 0 <= i < |entries| && entries[i] == (name, Lookup(entries, name).value) &&
                          forall j :: 0 <= j < i ==> entries[j].0 != name
  {
    if |entries| > 0 && entries[0].0 != name {
      LookupFindsFirst(entries[1..], name);
      assert forall i :: 1 <= i < |entries| ==> entries[i] == entries[1..][i - 1];
      if Lookup(entries, name).Some? {
        var k :| 0 <= k < |entries[1..]| && entries[1..][k] == (name, Lookup(entries, name).value) &&
                 forall j :: 0 <= j < k ==> entries[1..][j].0 != name;
        assert entries[k + 1] == (name, Lookup(entries, name).value);
      }
    }
  }

  /** The names a caller may select: "none" and every single-target preset. */
  predicate IsPresetMode(cfg: Config, name: string)
  {
    name == PresetNone || Lookup(cfg.presets, name).Some?
  }

  // ---------------------------------------------------------------------------
  // Tolerance, floor and cycle predicates

  function TooCold(cur: real, target: real, coldTolerance: real): bool
  {
    target >= cur + coldTolerance
  }

  function TooHot(cur: real, target: real, hotTolerance: real): bool
  {
    cur >= target + hotTolerance
  }

  function IsFloorHot(cfg: Config, floor: Option<real>): bool
  {
    cfg.hasFloorSensor && cfg.maxFloorTemp.Some? && floor.Some? && floor.value >= cfg.maxFloorTemp.value
  }

  function IsFloorCold(cfg: Config, floor: Option<real>): bool
  {
    cfg.hasFloorSensor && cfg.minFloorTemp.Some? && floor.Some? && floor.value <= cfg.minFloorTemp.value
  }

  /** The verdict of the heat-cool tolerance check. */
  datatype Verdict = Verdict(tooCold: bool, tooHot: bool, device: ToleranceDevice)

  /** Heat-cool tolerance check: the running heater compares against the low
      bound, the running cooler against the high bound, and with neither
      running the low bound decides "too cold" and the high bound "too hot".
      None when a temperature it compares is unknown. */
  function ColdOrHot(cfg: Config, s: Thermo): (r: Option<Verdict>)
    ensures r.Some? ==> s.curTemp.Some?
    ensures r.None? <==> s.curTemp.None? ||
                         (if s.heaterOn then s.targetLow.None?
                          else if IsCoolerActive(cfg, s.coolerOn) then s.targetHigh.None?
                          else s.targetLow.None? || s.targetHigh.None?)
    ensures r.Some? && r.value.device == HeaterBound ==> s.heaterOn
    ensures r.Some? && r.value.device == CoolerBound ==> !s.heaterOn && IsCoolerActive(cfg, s.coolerOn)
    ensures r.Some? && r.value.device == AutoBound ==> !s.heaterOn && !IsCoolerActive(cfg, s.coolerOn)
    // with a positive dead band and an ordered range the two verdicts exclude each other
    ensures r.Some? && cfg.coldTolerance + cfg.hotTolerance > 0.0 &&
            (r.value.device == AutoBound ==> s.targetLow.value <= s.targetHigh.value)
            ==> !(r.value.tooCold && r.value.tooHot)
  {
    if s.curTemp.None? then None
    else if s.heaterOn then
      if s.targetLow.None? then None
      else Some(Verdict(TooCold(s.curTemp.value, s.targetLow.value, cfg.coldTolerance),
                        TooHot(s.curTemp.value, s.targetLow.value, cfg.hotTolerance), HeaterBound))
    else if IsCoolerActive(cfg, s.coolerOn) then
      if s.targetHigh.None? then None
      else Some(Verdict(TooCold(s.curTemp.value, s.targetHigh.value, cfg.coldTolerance),
                        TooHot(s.curTemp.value, s.targetHigh.value, cfg.hotTolerance), CoolerBound))
    else if s.targetLow.None? || s.targetHigh.None? then None
    else Some(Verdict(TooCold(s.curTemp.value, s.targetLow.value, cfg.coldTolerance),
                      TooHot(s.curTemp.value, s.targetHigh.value, cfg.hotTolerance), AutoBound))
  }

  /** Whether the switch the controller is about to change has held its
      current state for the minimum cycle: the cooler's when asked for and
      configured, otherwise the heater's. */
  function RanLongEnough(cfg: Config, env: Env, coolerEntity: bool): bool
  {
    if coolerEntity && cfg.hasCooler then env.coolerRanLongEnough else env.heaterRanLongEnough
  }

  /** The minimum-cycle guard. In heat-cool mode with a cooler it passes when
      either switch has held its state long enough. */
  function NeedsCycle(cfg: Config, env: Env, dual: bool, cool: bool): (r: bool)
    ensures dual && !cool && cfg.hasCooler ==> (r <==> env.heaterRanLongEnough || env.coolerRanLongEnough)
    ensures cool && cfg.hasCooler ==> (r <==> env.coolerRanLongEnough)
    ensures !dual && !cool ==> (r <==> env.heaterRanLongEnough)
  {
    var longEnough := RanLongEnough(cfg, env, cool);
    if !dual || cool || !cfg.hasCooler then longEnough
    else longEnough || RanLongEnough(cfg, env, true)
  }

  /** The control gate: nothing happens before activation or in mode Off; a
      forced request or a keep-alive tick skips the minimum-cycle guard. */
  function NeedsControl(cfg: Config, active: bool, mode: Option<HvacMode>, env: Env,
                        time: Option<nat>, force: bool, dual: bool, cool: bool): (r: bool)
    ensures r ==> active && mode != Some(Off)
    ensures active && mode != Some(Off) && (force || time.Some? || !CycleGuardOn(cfg)) ==> r
    ensures !force && time.None? && CycleGuardOn(cfg) ==> (r <==> active && mode != Some(Off) && NeedsCycle(cfg, env, dual, cool))
  {
    if !active || mode == Some(Off) then false
    else if !force && time.None? && CycleGuardOn(cfg) then NeedsCycle(cfg, env, dual, cool)
    else true
  }

  /** The aux heater ran earlier on the same day. */
  function HasAuxHeatingRanToday(cfg: Config, lastRun: Option<int>, today: int): (r: bool)
    ensures r <==> AuxHeatingConfigured(cfg) && lastRun == Some(today)
  {
    if !AuxHeatingConfigured(cfg) then false
    else if lastRun.None? then false
    else lastRun.value == today
  }

  // ---------------------------------------------------------------------------
  // State relations used by the contracts

  /** Everything except the actuators, the aux-run date, the log and the
      active latch is the same. */
  predicate SameSettings(a: Thermo, b: Thermo)
  {
    a.curTemp == b.curTemp && a.curFloorTemp == b.curFloorTemp &&
    a.targetTemp == b.targetTemp && a.targetLow == b.targetLow && a.targetHigh == b.targetHigh &&
    a.savedTarget == b.savedTarget && a.savedLow == b.savedLow && a.savedHigh == b.savedHigh &&
    a.presetMode == b.presetMode && a.hvacMode == b.hvacMode && a.features == b.features
  }

  /** The switches, the aux-run date, the log and the active latch are the same. */
  predicate SameSwitches(a: Thermo, b: Thermo)
  {
    a.heaterOn == b.heaterOn && a.auxOn == b.auxOn && a.coolerOn == b.coolerOn &&
    a.auxLastRun == b.auxLastRun && a.log == b.log
  }

  /** Only the setpoints and the preset mode may differ. */
  predicate SameExceptSetpoints(a: Thermo, b: Thermo)
  {
    a.curTemp == b.curTemp && a.curFloorTemp == b.curFloorTemp &&
    a.savedTarget == b.savedTarget && a.savedLow == b.savedLow && a.savedHigh == b.savedHigh &&
    a.active == b.active && a.hvacMode == b.hvacMode && a.features == b.features && SameSwitches(a, b)
  }

  /** `b` extends `a`'s command log and keeps its settings. */
  predicate Extends(a: Thermo, b: Thermo)
  {
    SameSettings(a, b) && a.log <= b.log
  }

  /** The commands issued between two states. */
  function Issued(a: Thermo, b: Thermo): seq<Command>
    requires Extends(a, b)
  {
    b.log[|a.log|..]
  }

  // ---------------------------------------------------------------------------
  // Guarded actuator helpers: a command is issued only when the device is in
  // the other state, and the command takes effect.

  function HeaterTurnOn(s: Thermo): (r: Thermo)
    ensures r.heaterOn && Extends(s, r)
    ensures Issued(s, r) == if s.heaterOn then [] else [SwitchOn(Heater)]
    ensures r.active == s.active && r.auxOn == s.auxOn && r.coolerOn == s.coolerOn && r.auxLastRun == s.auxLastRun
  {
    if s.heaterOn then s else s.(heaterOn := true, log := s.log + [SwitchOn(Heater)])
  }

  function HeaterTurnOff(s: Thermo): (r: Thermo)
    ensures !r.heaterOn && Extends(s, r)
    ensures Issued(s, r) == if s.heaterOn then [SwitchOff(Heater)] else []
    ensures r.active == s.active && r.auxOn == s.auxOn && r.coolerOn == s.coolerOn && r.auxLastRun == s.auxLastRun
  {
    if !s.heaterOn then s else s.(heaterOn := false, log := s.log + [SwitchOff(Heater)])
  }

  /** Turning the aux heater on also records today as its last run. */
  function AuxHeaterTurnOn(cfg: Config, s: Thermo, today: int): (r: Thermo)
    ensures cfg.hasAuxHeater ==> IsAuxHeat(cfg, r.auxOn)
    ensures Extends(s, r)
    ensures Issued(s, r) == if IsAuxHeat(cfg, s.auxOn) || !cfg.hasAuxHeater then [] else [SwitchOn(AuxHeater)]
    ensures r.auxLastRun == if Issued(s, r) == [] then s.auxLastRun else Some(today)
    ensures r.active == s.active && r.heaterOn == s.heaterOn && r.coolerOn == s.coolerOn
  {
    if !cfg.hasAuxHeater || IsAuxHeat(cfg, s.auxOn) then s
    else s.(auxOn := true, auxLastRun := Some(today), log := s.log + [SwitchOn(AuxHeater)])
  }

  function AuxHeaterTurnOff(cfg: Config, s: Thermo): (r: Thermo)
    ensures !IsAuxHeat(cfg, r.auxOn) && Extends(s, r)
    ensures Issued(s, r) == if IsAuxHeat(cfg, s.auxOn) then [SwitchOff(AuxHeater)] else []
    ensures r.active == s.active && r.heaterOn == s.heaterOn && r.coolerOn == s.coolerOn && r.auxLastRun == s.auxLastRun
  {
    if !IsAuxHeat(cfg, s.auxOn) then s else s.(auxOn := false, log := s.log + [SwitchOff(AuxHeater)])
  }

  function CoolerTurnOn(cfg: Config, s: Thermo): (r: Thermo)
    ensures cfg.hasCooler ==> IsCoolerActive(cfg, r.coolerOn)
    ensures Extends(s, r)
    ensures Issued(s, r) == if IsCoolerActive(cfg, s.coolerOn) || !cfg.hasCooler then [] else [SwitchOn(Cooler)]
    ensures r.active == s.active && r.heaterOn == s.heaterOn && r.auxOn == s.auxOn && r.auxLastRun == s.auxLastRun
  {
    if !cfg.hasCooler || IsCoolerActive(cfg, s.coolerOn) then s
    else s.(coolerOn := true, log := s.log + [SwitchOn(Cooler)])
  }

  function CoolerTurnOff(cfg: Config, s: Thermo): (r: Thermo)
    ensures !IsCoolerActive(cfg, r.coolerOn) && Extends(s, r)
    ensures Issued(s, r) == if IsCoolerActive(cfg, s.coolerOn) then [SwitchOff(Cooler)] else []
    ensures r.active == s.active && r.heaterOn == s.heaterOn && r.auxOn == s.auxOn && r.auxLastRun == s.auxLastRun
  {
    if !IsCoolerActive(cfg, s.coolerOn) then s else s.(coolerOn := false, log := s.log + [SwitchOff(Cooler)])
  }

  // ---------------------------------------------------------------------------
  // Activation latch

  /** Both the current and the target temperature are known and the mode is not Off. */
  predicate CanActivate(s: Thermo)
  {
    s.curTemp.Some? && s.targetTemp.Some? && s.hvacMode != Some(Off)
  }

  function SetSelfActive(s: Thermo): (r: Thermo)
    ensures r.active <==> s.active || CanActivate(s)
    ensures SameSettings(s, r) && SameSwitches(s, r)
  {
    if !s.active && CanActivate(s) then s.(active := true) else s
  }

  // ---------------------------------------------------------------------------
  // Heating controller

  /** The heater or the aux heater is running. The order of the branches is
      the source's: a cold floor keeps the heating on through a high room
      temperature, a hot floor and an open window; staging to the aux heater
      comes next; a keep-alive tick finally re-asserts the heater. */
  function HeaterWhenOn(cfg: Config, s: Thermo, env: Env, tooHot: bool, time: Option<nat>): (r: Thermo)
    ensures Extends(s, r)
    ensures r.active == s.active && r.coolerOn == s.coolerOn
    ensures (tooHot || IsFloorHot(cfg, s.curFloorTemp) || env.anyOpeningOpen) && !IsFloorCold(cfg, s.curFloorTemp) ==>
              !r.heaterOn && !IsAuxHeat(cfg, r.auxOn)
    ensures IsFloorCold(cfg, s.curFloorTemp) && (s.heaterOn || IsAuxHeat(cfg, s.auxOn)) ==>
              r.heaterOn || IsAuxHeat(cfg, r.auxOn)
    ensures IsAuxHeat(cfg, r.auxOn) && !IsAuxHeat(cfg, s.auxOn) ==> env.firstStageTimedOut
    // the hand-over: once the timeout has passed the aux heater takes over,
    // and the heater keeps running only in dual mode
    ensures !((tooHot || IsFloorHot(cfg, s.curFloorTemp) || env.anyOpeningOpen) && !IsFloorCold(cfg, s.curFloorTemp)) &&
            StagesAux(cfg, s.auxOn, env) ==>
              IsAuxHeat(cfg, r.auxOn) && r.auxLastRun == Some(env.today) && (r.heaterOn <==> cfg.auxDualMode && s.heaterOn)
  {
    var floorHot := IsFloorHot(cfg, s.curFloorTemp);
    var floorCold := IsFloorCold(cfg, s.curFloorTemp);
    if (tooHot || floorHot || env.anyOpeningOpen) && !floorCold then
      AuxHeaterTurnOff(cfg, HeaterTurnOff(s))
    else if StagesAux(cfg, s.auxOn, env) then
      AuxHeaterTurnOn(cfg, if !cfg.auxDualMode then HeaterTurnOff(s) else s, env.today)
    else if time.Some? && !env.anyOpeningOpen && !floorHot then
      HeaterTurnOn(s)
    else s
  }

  /** Whether the running first stage hands over to the aux heater: aux
      heating is configured, the heater has run for the aux timeout, and the
      aux heater is not yet on. */
  function StagesAux(cfg: Config, auxOn: bool, env: Env): (r: bool)
    ensures r <==> cfg.hasAuxHeater && cfg.auxTimeoutSet && env.firstStageTimedOut && !auxOn
  {
    AuxHeatingConfigured(cfg) && env.firstStageTimedOut && !IsAuxHeat(cfg, auxOn)
  }

  /** The staging guard as the source writes it: the timeout check names the
      method `_first_stage_heating_timed_out` without calling it, and a bound
      method is always true, so the guard ignores the timeout. */
  function StagesAuxAsWritten(cfg: Config, auxOn: bool): bool
  {
    AuxHeatingConfigured(cfg) && true && !IsAuxHeat(cfg, auxOn)
  }

  /** `HeaterWhenOn` with the staging guard as written. */
  function HeaterWhenOnAsWritten(cfg: Config, s: Thermo, env: Env, tooHot: bool, time: Option<nat>): (r: Thermo)
    ensures Extends(s, r)
    ensures r.active == s.active && r.coolerOn == s.coolerOn
  {
    var floorHot := IsFloorHot(cfg, s.curFloorTemp);
    var floorCold := IsFloorCold(cfg, s.curFloorTemp);
    if (tooHot || floorHot || env.anyOpeningOpen) && !floorCold then
      AuxHeaterTurnOff(cfg, HeaterTurnOff(s))
    else if StagesAuxAsWritten(cfg, s.auxOn) then
      AuxHeaterTurnOn(cfg, if !cfg.auxDualMode then HeaterTurnOff(s) else s, env.today)
    else if time.Some? && !env.anyOpeningOpen && !floorHot then
      HeaterTurnOn(s)
    else s
  }

  /** Neither heater is running: heat when too cold with no open window and no
      hot floor, or whenever the floor is too cold; the aux heater takes over at
      once if it already ran today. */
  function HeaterWhenOff(cfg: Config, s: Thermo, env: Env, tooCold: bool, time: Option<nat>): (r: Thermo)
    ensures Extends(s, r)
    ensures r.active == s.active && r.coolerOn == s.coolerOn
    ensures (tooCold && !env.anyOpeningOpen && !IsFloorHot(cfg, s.curFloorTemp)) || IsFloorCold(cfg, s.curFloorTemp) ==>
              r.heaterOn || IsAuxHeat(cfg, r.auxOn)
    ensures !((tooCold && !env.anyOpeningOpen && !IsFloorHot(cfg, s.curFloorTemp)) || IsFloorCold(cfg, s.curFloorTemp)) ==>
              r.auxOn == s.auxOn &&
              (time.Some? || env.anyOpeningOpen || IsFloorHot(cfg, s.curFloorTemp) ==> !r.heaterOn) &&
              (time.None? && !env.anyOpeningOpen && !IsFloorHot(cfg, s.curFloorTemp) ==> r == s)
    // an aux heater that already ran today starts in the heater's place; the
    // heater joins it only in dual mode
    ensures ((tooCold && !env.anyOpeningOpen && !IsFloorHot(cfg, s.curFloorTemp)) || IsFloorCold(cfg, s.curFloorTemp)) &&
            HasAuxHeatingRanToday(cfg, s.auxLastRun, env.today) ==>
              IsAuxHeat(cfg, r.auxOn) && (r.heaterOn <==> cfg.auxDualMode || s.heaterOn)
    ensures ((tooCold && !env.anyOpeningOpen && !IsFloorHot(cfg, s.curFloorTemp)) || IsFloorCold(cfg, s.curFloorTemp)) &&
            !HasAuxHeatingRanToday(cfg, s.auxLastRun, env.today) ==>
              r.heaterOn && r.auxOn == s.auxOn
  {
    var floorHot := IsFloorHot(cfg, s.curFloorTemp);
    var floorCold := IsFloorCold(cfg, s.curFloorTemp);
    if (tooCold && !env.anyOpeningOpen && !floorHot) || floorCold then
      var s1 := if cfg.auxDualMode then HeaterTurnOn(s) else s;
      if HasAuxHeatingRanToday(cfg, s.auxLastRun, env.today) then AuxHeaterTurnOn(cfg, s1, env.today)
      else HeaterTurnOn(s1)
    else if time.Some? || env.anyOpeningOpen || floorHot then
      HeaterTurnOff(s)
    else s
  }

  function ControlHeating(cfg: Config, s0: Thermo, env: Env, time: Option<nat>, force: bool): (r: Reply)
    ensures Extends(s0, r.state)
    ensures s0.active ==> r.state.active
    ensures r.state.log != s0.log ==> r.state.active && r.state.hvacMode != Some(Off)
  {
    var s := SetSelfActive(s0);
    if !NeedsControl(cfg, s.active, s.hvacMode, env, time, force, false, false) then Reply(s, None)
    else if s.curTemp.None? || s.targetTemp.None? then Reply(s, Some(MissingTemperature))
    else
      var tooCold := TooCold(s.curTemp.value, s.targetTemp.value, cfg.coldTolerance);
      var tooHot := TooHot(s.curTemp.value, s.targetTemp.value, cfg.hotTolerance);
      var s1 := CoolerTurnOff(cfg, s);
      if s1.heaterOn || IsAuxHeat(cfg, s1.auxOn) then Reply(HeaterWhenOn(cfg, s1, env, tooHot, time), None)
      else Reply(HeaterWhenOff(cfg, s1, env, tooCold, time), None)
  }

  // ---------------------------------------------------------------------------
  // Cooling controller: the cooler, or the heater entity acting as the air
  // conditioner when no cooler is configured.

  function ControlledActive(cfg: Config, s: Thermo): bool
  {
    if cfg.hasCooler then IsCoolerActive(cfg, s.coolerOn) else s.heaterOn
  }

  function ControlledOn(cfg: Config, s: Thermo): (r: Thermo)
    ensures Extends(s, r) && ControlledActive(cfg, r)
  {
    if cfg.hasCooler then CoolerTurnOn(cfg, s) else HeaterTurnOn(s)
  }

  function ControlledOff(cfg: Config, s: Thermo): (r: Thermo)
    ensures Extends(s, r) && !ControlledActive(cfg, r)
  {
    if cfg.hasCooler then CoolerTurnOff(cfg, s) else HeaterTurnOff(s)
  }

  function ControlCooling(cfg: Config, s0: Thermo, env: Env, time: Option<nat>, force: bool): (r: Reply)
    ensures Extends(s0, r.state)
    ensures s0.active ==> r.state.active
    ensures r.state.log != s0.log ==> r.state.active && r.state.hvacMode != Some(Off)
  {
    var s := SetSelfActive(s0);
    if !NeedsControl(cfg, s.active, s.hvacMode, env, time, force, false, true) then Reply(s, None)
    else if s.curTemp.None? || s.targetTemp.None? then Reply(s, Some(MissingTemperature))
    else
      var tooCold := TooCold(s.curTemp.value, s.targetTemp.value, cfg.coldTolerance);
      var tooHot := TooHot(s.curTemp.value, s.targetTemp.value, cfg.hotTolerance);
      Reply(CoolingDecide(cfg, s, env.anyOpeningOpen, tooCold, tooHot, time), None)
  }

  /** A running device stops when too cold or with an open window, and a
      keep-alive tick re-asserts it otherwise; an idle one starts when too hot
      with every window closed, and a keep-alive tick or an open window
      re-asserts it off. */
  function CoolingDecide(cfg: Config, s: Thermo, open: bool, tooCold: bool, tooHot: bool, time: Option<nat>): (r: Thermo)
    ensures Extends(s, r)
    ensures open ==> !ControlledActive(cfg, r)
    ensures ControlledActive(cfg, s) && tooCold ==> !ControlledActive(cfg, r)
    ensures !ControlledActive(cfg, s) && tooHot && !open ==> ControlledActive(cfg, r)
    ensures !tooCold && !tooHot && !open ==> (ControlledActive(cfg, r) <==> ControlledActive(cfg, s))
  {
    if ControlledActive(cfg, s) then
      if tooCold || open then ControlledOff(cfg, s)
      else if time.Some? && !open then ControlledOn(cfg, s)
      else s
    else
      if tooHot && !open then ControlledOn(cfg, s)
      else if time.Some? || open then ControlledOff(cfg, s)
      else s
  }

  // ---------------------------------------------------------------------------
  // Heat-cool controller and its toggle strategies

  function HeaterToggle(s: Thermo, tooCold: bool, tooHot: bool): (r: Thermo)
    ensures Extends(s, r) && r.coolerOn == s.coolerOn
    ensures r.heaterOn == if tooCold then true else if tooHot then false else s.heaterOn
  {
    if tooCold then HeaterTurnOn(s) else if tooHot then HeaterTurnOff(s) else s
  }

  function CoolerToggle(cfg: Config, s: Thermo, tooCold: bool, tooHot: bool): (r: Thermo)
    ensures Extends(s, r) && r.heaterOn == s.heaterOn
    ensures tooCold ==> !IsCoolerActive(cfg, r.coolerOn)
    ensures !tooCold && tooHot && cfg.hasCooler ==> IsCoolerActive(cfg, r.coolerOn)
    ensures !tooCold && !tooHot ==> r == s
  {
    if tooCold then CoolerTurnOff(cfg, s) else if tooHot then CoolerTurnOn(cfg, s) else s
  }

  /** With neither device running: heat when too cold, cool when too hot (an
      open window only holds back the switching on), otherwise both off. */
  function AutoToggle(cfg: Config, s: Thermo, open: bool, tooCold: bool, tooHot: bool): (r: Thermo)
    ensures Extends(s, r)
    ensures !(r.heaterOn && IsCoolerActive(cfg, r.coolerOn))
    ensures open ==> (r.heaterOn ==> s.heaterOn) && (IsCoolerActive(cfg, r.coolerOn) ==> IsCoolerActive(cfg, s.coolerOn))
    ensures tooCold && !open ==> r.heaterOn && !IsCoolerActive(cfg, r.coolerOn)
    ensures !tooCold && tooHot && !open && cfg.hasCooler ==> IsCoolerActive(cfg, r.coolerOn) && !r.heaterOn
    ensures !tooCold && !tooHot ==> !r.heaterOn && !IsCoolerActive(cfg, r.coolerOn)
  {
    if tooCold then
      CoolerTurnOff(cfg, if !open then HeaterTurnOn(s) else s)
    else if tooHot then
      HeaterTurnOff(if !open then CoolerTurnOn(cfg, s) else s)
    else
      CoolerTurnOff(cfg, HeaterTurnOff(s))
  }

  function HeaterCoolerToggle(cfg: Config, s: Thermo, open: bool, v: Verdict): (r: Thermo)
    ensures Extends(s, r)
  {
    match v.device
    case HeaterBound => HeaterToggle(s, v.tooCold, v.tooHot)
    case CoolerBound => CoolerToggle(cfg, s, v.tooCold, v.tooHot)
    case AutoBound => AutoToggle(cfg, s, open, v.tooCold, v.tooHot)
  }

  /** The heat-cool entry latches `active` as soon as the current temperature
      is known and heat-cool is configured. */
  function HeatCoolActivate(cfg: Config, s: Thermo): (r: Thermo)
    ensures r.active <==> s.active || (ConfiguredForHeatCool(cfg, s.targetLow, s.targetHigh) && s.curTemp.Some?)
    ensures SameSettings(s, r) && SameSwitches(s, r)
  {
    if !s.active && ConfiguredForHeatCool(cfg, s.targetLow, s.targetHigh) && s.curTemp.Some? then s.(active := true)
    else s
  }

  /** The safety interlocks, in the source's order: an open window forces both
      devices off, then a hot floor forces the heater off, then a cold floor
      forces it on; otherwise the toggle strategy decides. */
  function HeatCoolDecide(cfg: Config, s: Thermo, env: Env, v: Verdict): (r: Thermo)
    ensures Extends(s, r)
    ensures env.anyOpeningOpen ==> !r.heaterOn && !IsCoolerActive(cfg, r.coolerOn)
    ensures !env.anyOpeningOpen && IsFloorHot(cfg, s.curFloorTemp) ==> !r.heaterOn && r.coolerOn == s.coolerOn
    ensures !env.anyOpeningOpen && !IsFloorHot(cfg, s.curFloorTemp) && IsFloorCold(cfg, s.curFloorTemp) ==>
              r.heaterOn && r.coolerOn == s.coolerOn
  {
    if env.anyOpeningOpen then CoolerTurnOff(cfg, HeaterTurnOff(s))
    else if IsFloorHot(cfg, s.curFloorTemp) then HeaterTurnOff(s)
    else if IsFloorCold(cfg, s.curFloorTemp) then HeaterTurnOn(s)
    else HeaterCoolerToggle(cfg, s, env.anyOpeningOpen, v)
  }

  function ControlHeatCool(cfg: Config, s0: Thermo, env: Env, time: Option<nat>, force: bool): (r: Reply)
    ensures Extends(s0, r.state)
    ensures s0.active ==> r.state.active
    ensures r.state.log != s0.log ==> r.state.active && r.state.hvacMode != Some(Off)
  {
    var s := HeatCoolActivate(cfg, s0);
    if !NeedsControl(cfg, s.active, s.hvacMode, env, time, force, true, false) then Reply(s, None)
    else match ColdOrHot(cfg, s)
      case None => Reply(s, Some(MissingTemperature))
      case Some(v) =>
        var s1 := HeatCoolDecide(cfg, s, env, v);
        // a keep-alive tick runs the same toggle once more
        Reply(if time.Some? then HeaterCoolerToggle(cfg, s1, env.anyOpeningOpen, v) else s1, None)
  }

  // ---------------------------------------------------------------------------
  // Dispatcher and triggers

  /** Heat-cool needs a cooler and mode HeatCool; cooling runs in AC mode or
      with a cooler in mode Cool; everything else goes to the heating controller. */
  function ControlClimate(cfg: Config, s: Thermo, env: Env, time: Option<nat>, force: bool): (r: Reply)
    ensures Extends(s, r.state)
    ensures s.active ==> r.state.active
    ensures r.state.log != s.log ==> r.state.active && s.hvacMode != Some(Off)
  {
    if cfg.hasCooler && s.hvacMode == Some(HeatCool) then ControlHeatCool(cfg, s, env, time, force)
    else if cfg.acMode || (cfg.hasCooler && s.hvacMode == Some(Cool)) then ControlCooling(cfg, s, env, time, force)
    else ControlHeating(cfg, s, env, time, force)
  }

  /** A temperature sensor report: no state is ignored, a reading that is not
      a finite number keeps the last value but still runs the controller. */
  function SensorChanged(cfg: Config, s: Thermo, reading: Reading, env: Env): (r: Reply)
    ensures reading.Unavailable? ==> r == Reply(s, None)
    ensures reading.Finite? ==> r.state.curTemp == Some(reading.value)
    ensures !reading.Finite? ==> r.state.curTemp == s.curTemp
  {
    match reading
    case Unavailable => Reply(s, None)
    case NotFinite => ControlClimate(cfg, s, env, None, false)
    case Finite(v) => ControlClimate(cfg, s.(curTemp := Some(v)), env, None, false)
  }

  function FloorSensorChanged(cfg: Config, s: Thermo, reading: Reading, env: Env): (r: Reply)
    ensures reading.Unavailable? ==> r == Reply(s, None)
    ensures reading.Finite? ==> r.state.curFloorTemp == Some(reading.value)
    ensures !reading.Finite? ==> r.state.curFloorTemp == s.curFloorTemp
  {
    match reading
    case Unavailable => Reply(s, None)
    case NotFinite => ControlClimate(cfg, s, env, None, false)
    case Finite(v) => ControlClimate(cfg, s.(curFloorTemp := Some(v)), env, None, false)
  }

  /** An opening changed: one that opened and has a timeout is acted on only
      when the timeout expires (see `ControlClimateForced`); any other change
      runs the controller at once, forced. */
  function OpeningChanged(cfg: Config, s: Thermo, hasTimeout: bool, report: OpeningReport, env: Env): (r: Reply)
    ensures report.Unreported? ==> r == Reply(s, None)
    ensures report.Opened? && hasTimeout ==> r == Reply(s, None)
    ensures report.Closed? || (report.Opened? && !hasTimeout) ==> r == ControlClimate(cfg, s, env, None, true)
  {
    match report
    case Unreported => Reply(s, None)
    case Opened => if hasTimeout then Reply(s, None) else ControlClimate(cfg, s, env, None, true)
    case Closed => ControlClimate(cfg, s, env, None, true)
  }

  /** A deferred callback (opening timeout) runs the controller forced, and the
      timer hands it the current time, so it also takes the keep-alive paths. */
  function ControlClimateForced(cfg: Config, s: Thermo, env: Env, time: nat): Reply
  {
    ControlClimate(cfg, s, env, Some(time), true)
  }

  /** The aux heater timeout callback runs the heating controller forced. */
  function ControlHeatingForced(cfg: Config, s: Thermo, env: Env, time: nat): Reply
  {
    ControlHeating(cfg, s, env, Some(time), true)
  }

  // ---------------------------------------------------------------------------
  // Mode changes

  /** After the cooling controller ran for a switch to Cool, the heating
      devices are switched off when any device runs. As written this also
      switches off the heater entity when it is itself the air conditioner
      (AC mode); `CoolEntryShutoff` leaves it on in that case. */
  function CoolEntryShutoffAsWritten(cfg: Config, s: Thermo): (r: Thermo)
    ensures Extends(s, r)
    ensures !r.heaterOn && (AuxHeatingConfigured(cfg) ==> !IsAuxHeat(cfg, r.auxOn))
    ensures IsDeviceActive(cfg, s) ==> r.coolerOn == s.coolerOn
    ensures !IsDeviceActive(cfg, s) ==> r == s
  {
    if IsDeviceActive(cfg, s) then
      var s1 := HeaterTurnOff(s);
      if AuxHeatingConfigured(cfg) then AuxHeaterTurnOff(cfg, s1) else s1
    else s
  }

  function CoolEntryShutoff(cfg: Config, s: Thermo): (r: Thermo)
    ensures Extends(s, r) && r.coolerOn == s.coolerOn
    // the device that cools is never switched off here
    ensures cfg.acMode ==> r == s
    ensures !cfg.acMode ==> !r.heaterOn && (AuxHeatingConfigured(cfg) ==> !IsAuxHeat(cfg, r.auxOn))
  {
    if !cfg.acMode then CoolEntryShutoffAsWritten(cfg, s) else s
  }

  /** A mode request: Heat, Cool and HeatCool run their controller forced,
      Off switches everything off, and any other mode is ignored. */
  function SetHvacMode(cfg: Config, s: Thermo, mode: HvacMode, env: Env): (r: Reply)
    ensures mode in {Off, Heat, Cool, HeatCool} ==> r.state.hvacMode == Some(mode)
    ensures mode !in {Off, Heat, Cool, HeatCool} ==> r == Reply(s, None)
    ensures mode == Off ==> !r.state.heaterOn && (cfg.hasCooler ==> !r.state.coolerOn)
  {
    match mode
    case Heat => EnterHeat(cfg, s, env)
    case Cool => EnterCool(cfg, s, env)
    case HeatCool => ControlHeatCool(cfg, s.(hvacMode := Some(HeatCool)), env, None, true)
    case Off => Reply(EnterOff(cfg, s), None)
    case _ => Reply(s, None)
  }

  /** Heat: the heating controller, then the cooler is switched off. */
  function EnterHeat(cfg: Config, s: Thermo, env: Env): (r: Reply)
    ensures r.state.hvacMode == Some(Heat)
  {
    var r := ControlHeating(cfg, s.(hvacMode := Some(Heat)), env, None, true);
    if r.error.Some? then r
    else Reply(if IsCoolerActive(cfg, r.state.coolerOn) then CoolerTurnOff(cfg, r.state) else r.state, None)
  }

  /** Cool: the cooling controller, then the heating shut-off. */
  function EnterCool(cfg: Config, s: Thermo, env: Env): (r: Reply)
    ensures r.state.hvacMode == Some(Cool)
    ensures r.error.None? && !cfg.acMode ==> !r.state.heaterOn && (AuxHeatingConfigured(cfg) ==> !IsAuxHeat(cfg, r.state.auxOn))
  {
    var r := ControlCooling(cfg, s.(hvacMode := Some(Cool)), env, None, true);
    if r.error.Some? then r else Reply(CoolEntryShutoff(cfg, r.state), None)
  }

  /** `EnterCool` with the heating shut-off as written. */
  function EnterCoolAsWritten(cfg: Config, s: Thermo, env: Env): (r: Reply)
    ensures r.state.hvacMode == Some(Cool)
  {
    var r := ControlCooling(cfg, s.(hvacMode := Some(Cool)), env, None, true);
    if r.error.Some? then r else Reply(CoolEntryShutoffAsWritten(cfg, r.state), None)
  }

  /** Off: every running device is switched off. */
  function EnterOff(cfg: Config, s: Thermo): (r: Thermo)
    ensures r.hvacMode == Some(Off) && !r.heaterOn && (cfg.hasCooler ==> !r.coolerOn)
  {
    var s1 := s.(hvacMode := Some(Off));
    var s2 := if IsDeviceActive(cfg, s1) then HeaterTurnOff(s1) else s1;
    var s3 := if cfg.hasCooler then CoolerTurnOff(cfg, s2) else s2;
    if AuxHeatingConfigured(cfg) then AuxHeaterTurnOff(cfg, s3) else s3
  }

  // ---------------------------------------------------------------------------
  // Setpoints and presets

  /** A new setpoint request. Target mode needs the single temperature, range
      mode both bounds (and also takes the single one as given, even absent);
      a request missing them changes nothing and runs nothing. */
  function SetTemperature(cfg: Config, s: Thermo, temperature: Option<real>, low: Option<real>,
                          high: Option<real>, env: Env): (r: Reply)
    ensures r.state.presetMode == s.presetMode
    ensures IsTargetMode(s.features) && temperature.Some? ==> r.state.targetTemp == temperature
    ensures IsRangeMode(s.features) && low.Some? && high.Some? ==>
              r.state.targetLow == low && r.state.targetHigh == high && r.state.targetTemp == temperature
    ensures IsTargetMode(s.features) && temperature.None? ==> r == Reply(s, None)
    ensures IsRangeMode(s.features) && (low.None? || high.None?) ==> r == Reply(s, None)
  {
    match NewSetpoints(s, temperature, low, high)
    case None => Reply(s, None)
    case Some(s1) => ControlClimate(cfg, s1, env, None, true)
  }

  /** The setpoints a request installs, or None when it lacks the values the
      current mode needs. */
  function NewSetpoints(s: Thermo, temperature: Option<real>, low: Option<real>, high: Option<real>): (r: Option<Thermo>)
    ensures r.Some? ==> SameExceptSetpoints(s, r.value) && r.value.presetMode == s.presetMode
  {
    if IsTargetMode(s.features) then
      if temperature.None? then None else Some(s.(targetTemp := temperature))
    else if IsRangeMode(s.features) then
      if low.None? || high.None? then None
      else Some(s.(targetTemp := temperature, targetLow := low, targetHigh := high))
    else Some(s)
  }

  /** Leaving every preset: the setpoints saved when the first preset was
      chosen come back. */
  function PresetsWhenNoPresetMode(s: Thermo): (r: Thermo)
    ensures r.presetMode == PresetNone
    ensures IsRangeMode(s.features) ==> r.targetLow == s.savedLow && r.targetHigh == s.savedHigh && r.targetTemp == s.targetTemp
    ensures !IsRangeMode(s.features) ==> r.targetTemp == s.savedTarget && r.targetLow == s.targetLow && r.targetHigh == s.targetHigh
    ensures SameExceptSetpoints(s, r)
  {
    var s1 := s.(presetMode := PresetNone);
    if IsRangeMode(s.features) then s1.(targetLow := s.savedLow, targetHigh := s.savedHigh)
    else s1.(targetTemp := s.savedTarget)
  }

  /** Choosing a preset: the current setpoints are saved only when coming from
      "none", then the preset's setpoint(s) replace them. A name without an
      entry fails after the save and leaves the preset mode as it was. */
  function PresetsWhenHavePresetMode(cfg: Config, s: Thermo, name: string): (r: Reply)
    ensures r.error.None? ==> r.state.presetMode == name
    ensures r.error.Some? ==> r.state.presetMode == s.presetMode
    ensures s.presetMode != PresetNone ==>
              r.state.savedTarget == s.savedTarget && r.state.savedLow == s.savedLow && r.state.savedHigh == s.savedHigh
    ensures IsRangeMode(s.features) && s.presetMode == PresetNone ==>
              r.state.savedLow == s.targetLow && r.state.savedHigh == s.targetHigh
    ensures !IsRangeMode(s.features) && s.presetMode == PresetNone ==> r.state.savedTarget == s.targetTemp
    ensures !IsRangeMode(s.features) && r.error.None? ==>
              r.state.targetTemp.Some? && Lookup(cfg.presets, name) == Some(r.state.targetTemp.value)
    ensures IsRangeMode(s.features) && r.error.None? ==>
              r.state.targetLow.Some? && r.state.targetHigh.Some? &&
              Lookup(cfg.presetsRange, name) == Some((r.state.targetLow.value, r.state.targetHigh.value))
  {
    ApplyPreset(cfg, if s.presetMode == PresetNone then SaveSetpoints(s) else s, name)
  }

  /** The preset's setpoint(s) of the current mode replace the current ones. */
  function ApplyPreset(cfg: Config, s: Thermo, name: string): (r: Reply)
    ensures r.error.Some? ==> r.state == s
  {
    if IsRangeMode(s.features) then
      match Lookup(cfg.presetsRange, name)
      case None => Reply(s, Some(MissingPresetEntry(name)))
      case Some(p) => Reply(s.(targetLow := Some(p.0), targetHigh := Some(p.1), presetMode := name), None)
    else
      match Lookup(cfg.presets, name)
      case None => Reply(s, Some(MissingPresetEntry(name)))
      case Some(t) => Reply(s.(targetTemp := Some(t), presetMode := name), None)
  }

  /** The setpoints of the current mode are saved for a later return to "none". */
  function SaveSetpoints(s: Thermo): (r: Thermo)
    ensures IsRangeMode(s.features) ==> r.savedLow == s.targetLow && r.savedHigh == s.targetHigh && r.savedTarget == s.savedTarget
    ensures !IsRangeMode(s.features) ==> r.savedTarget == s.targetTemp && r.savedLow == s.savedLow && r.savedHigh == s.savedHigh
  {
    if IsRangeMode(s.features) then s.(savedLow := s.targetLow, savedHigh := s.targetHigh)
    else s.(savedTarget := s.targetTemp)
  }

  function SetPresetMode(cfg: Config, s: Thermo, name: string, env: Env): (r: Reply)
    ensures !IsPresetMode(cfg, name) ==> r == Reply(s, Some(UnsupportedPreset(name)))
    ensures IsPresetMode(cfg, name) && name == s.presetMode ==> r == Reply(s, None)
  {
    if !IsPresetMode(cfg, name) then Reply(s, Some(UnsupportedPreset(name)))
    else if name == s.presetMode then Reply(s, None)
    else if name == PresetNone then ControlClimate(cfg, PresetsWhenNoPresetMode(s), env, None, true)
    else
      var r := PresetsWhenHavePresetMode(cfg, s, name);
      if r.error.Some? then r else ControlClimate(cfg, r.state, env, None, true)
  }

  // ---------------------------------------------------------------------------
  // Default setpoints and feature flags

  /** Fill a missing single target: from the high bound (or the maximum) when
      cooling, from the low bound (or the minimum) otherwise. */
  function DefaultTempsTargetMode(cfg: Config, s: Thermo): (r: Thermo)
    ensures r.targetTemp.Some?
    ensures s.targetTemp.Some? ==> r == s
    ensures SameExceptSetpoints(s, r) && r.presetMode == s.presetMode && r.targetLow == s.targetLow && r.targetHigh == s.targetHigh
    ensures s.targetTemp.None? && (cfg.acMode || s.hvacMode == Some(Cool)) ==>
              r.targetTemp == (if s.targetHigh.Some? then s.targetHigh else Some(MaxTemp(cfg)))
    ensures s.targetTemp.None? && !(cfg.acMode || s.hvacMode == Some(Cool)) ==>
              r.targetTemp == (if s.targetLow.Some? then s.targetLow else Some(MinTemp(cfg)))
  {
    if s.targetTemp.Some? then s
    else if cfg.acMode || s.hvacMode == Some(Cool) then
      s.(targetTemp := if s.targetHigh.None? then Some(MaxTemp(cfg)) else s.targetHigh)
    else
      s.(targetTemp := if s.targetLow.None? then Some(MinTemp(cfg)) else s.targetLow)
  }

  /** Fill a missing range: from the minimum/maximum when there is no single
      target, otherwise a one-degree range holding the target, shifted down
      when the target is within a degree of the maximum. */
  function DefaultTempsRangeMode(cfg: Config, s: Thermo): (r: Thermo)
    ensures r.targetLow.Some? && r.targetHigh.Some?
    ensures !(s.targetLow.Some? && s.targetHigh.Some?) ==> r.targetTemp.Some?
    ensures s.targetLow.Some? && s.targetHigh.Some? ==> r == s
    ensures SameExceptSetpoints(s, r) && r.presetMode == s.presetMode
    ensures !(s.targetLow.Some? && s.targetHigh.Some?) && s.targetTemp.None? ==>
              r.targetTemp == r.targetLow == Some(MinTemp(cfg)) && r.targetHigh == Some(MaxTemp(cfg))
    ensures !(s.targetLow.Some? && s.targetHigh.Some?) && s.targetTemp.Some? ==>
              r.targetTemp == s.targetTemp &&
              r.targetHigh.value == r.targetLow.value + PrecisionWhole &&
              (s.targetTemp == r.targetLow || s.targetTemp == r.targetHigh) &&
              (s.targetTemp.value + PrecisionWhole < MaxTemp(cfg) <==> r.targetLow == s.targetTemp)
  {
    if s.targetLow.Some? && s.targetHigh.Some? then s
    else if s.targetTemp.None? then
      s.(targetTemp := Some(MinTemp(cfg)), targetLow := Some(MinTemp(cfg)), targetHigh := Some(MaxTemp(cfg)))
    else
      var t := s.targetTemp.value;
      if t + PrecisionWhole >= MaxTemp(cfg) then s.(targetLow := Some(t - PrecisionWhole), targetHigh := Some(t))
      else s.(targetLow := Some(t), targetHigh := Some(t + PrecisionWhole))
  }

  function DefaultTargetTemps(cfg: Config, s: Thermo): Thermo
  {
    if IsTargetMode(s.features) then DefaultTempsTargetMode(cfg, s)
    else if IsRangeMode(s.features) then DefaultTempsRangeMode(cfg, s)
    else s
  }

  /** Target mode unless heat-cool is configured and the mode is neither Heat
      nor Cool; switching leaves an active preset of the other kind and
      restores that kind's saved setpoints, then the defaults are filled. */
  function SetSupportFlags(cfg: Config, s: Thermo): (r: Thermo)
    ensures IsTargetMode(r.features) != IsRangeMode(r.features)
    ensures r.features.turnOff
    ensures IsRangeMode(r.features) <==>
              ConfiguredForHeatCool(cfg, s.targetLow, s.targetHigh) && s.hvacMode != Some(Cool) && s.hvacMode != Some(Heat)
    ensures IsTargetMode(r.features) ==> r.targetTemp.Some?
    ensures IsRangeMode(r.features) ==> r.targetLow.Some? && r.targetHigh.Some?
    ensures r.features.presetMode <==> (if IsRangeMode(r.features) then |cfg.presetsRange| > 0 else |cfg.presets| > 0)
    ensures r.features.auxHeat <==> IsTargetMode(r.features) && AuxHeatingConfigured(cfg)
    // leaving an active preset of the other kind resets the preset and restores the saved setpoints
    ensures IsRangeMode(s.features) && IsTargetMode(r.features) && s.presetMode != PresetNone ==>
              r.presetMode == PresetNone && r.targetLow == s.savedLow && r.targetHigh == s.savedHigh
    ensures IsTargetMode(s.features) && IsRangeMode(r.features) && s.presetMode != PresetNone ==>
              r.presetMode == PresetNone && (s.savedTarget.Some? ==> r.targetTemp == s.savedTarget)
  {
    DefaultTargetTemps(cfg, SwitchFlags(cfg, s))
  }

  /** The flag switch alone, before the defaults are filled. */
  function SwitchFlags(cfg: Config, s: Thermo): (r: Thermo)
    ensures IsTargetMode(r.features) != IsRangeMode(r.features)
    ensures IsRangeMode(r.features) <==>
              ConfiguredForHeatCool(cfg, s.targetLow, s.targetHigh) && s.hvacMode != Some(Cool) && s.hvacMode != Some(Heat)
    ensures r.features.turnOff && (r.features.auxHeat <==> IsTargetMode(r.features) && AuxHeatingConfigured(cfg))
    ensures r.features.presetMode <==> (if IsRangeMode(r.features) then |cfg.presetsRange| > 0 else |cfg.presets| > 0)
    // leaving an active preset of the other kind resets the preset and restores the saved setpoints
    ensures IsRangeMode(s.features) && IsTargetMode(r.features) && s.presetMode != PresetNone ==>
              r.presetMode == PresetNone && r.targetLow == s.savedLow && r.targetHigh == s.savedHigh &&
              r.targetTemp == s.targetTemp
    ensures IsTargetMode(s.features) && IsRangeMode(r.features) && s.presetMode != PresetNone ==>
              r.presetMode == PresetNone && r.targetTemp == s.savedTarget &&
              r.targetLow == s.targetLow && r.targetHigh == s.targetHigh
    // otherwise only the flags change
    ensures !(IsRangeMode(s.features) && IsTargetMode(r.features) && s.presetMode != PresetNone) &&
            !(IsTargetMode(s.features) && IsRangeMode(r.features) && s.presetMode != PresetNone) ==>
              r == s.(features := r.features)
  {
    if !ConfiguredForHeatCool(cfg, s.targetLow, s.targetHigh) || s.hvacMode == Some(Cool) || s.hvacMode == Some(Heat) then
      // leaving an active range preset restores the saved range
      var s1 := if IsRangeMode(s.features) && s.presetMode != PresetNone then PresetsWhenNoPresetMode(s) else s;
      s1.(features := TargetModeFeatures(cfg))
    else
      // leaving an active single-target preset restores the saved target
      var s1 := if IsTargetMode(s.features) && s.presetMode != PresetNone then PresetsWhenNoPresetMode(s) else s;
      s1.(features := RangeModeFeatures(cfg))
  }

  /** The flags of target mode: aux heat when staging is configured, presets
      when single-target presets exist. */
  function TargetModeFeatures(cfg: Config): Features
  {
    Features(targetTemperature := true, targetTemperatureRange := false,
             presetMode := |cfg.presets| > 0, auxHeat := AuxHeatingConfigured(cfg), turnOff := true)
  }

  /** The flags of range mode: presets when range presets exist, never aux heat. */
  function RangeModeFeatures(cfg: Config): Features
  {
    Features(targetTemperature := false, targetTemperatureRange := true,
             presetMode := |cfg.presetsRange| > 0, auxHeat := false, turnOff := true)
  }

  // ---------------------------------------------------------------------------
  // Construction

  /** A heater with a cooler is never in AC mode. */
  function Normalised(cfg: Config): (r: Config)
    ensures r.hasCooler ==> !r.acMode
    ensures r.(acMode := cfg.acMode) == cfg
    ensures !cfg.hasCooler ==> r == cfg
  {
    cfg.(acMode := cfg.acMode && !cfg.hasCooler)
  }

  /** The modes offered to the user. */
  function HvacModes(cfg: Config, low: Option<real>, high: Option<real>): (r: set<HvacMode>)
    ensures Off in r
    ensures HeatCool in r ==> cfg.hasCooler
    ensures cfg.hasCooler ==> {Heat, Cool} <= r && (HeatCool in r <==> ConfiguredForHeatCool(cfg, low, high))
    ensures !cfg.hasCooler ==> r == if cfg.acMode then {Cool, Off} else {Heat, Off}
  {
    if cfg.hasCooler then {Off, Heat, Cool} + (if ConfiguredForHeatCool(cfg, low, high) then {HeatCool} else {})
    else if cfg.acMode then {Cool, Off}
    else {Heat, Off}
  }

  /** The saved target seeded at construction: the configured target, or the
      first preset's. A target of zero reads as absent here, as any false
      value does. */
  function InitialSavedTarget(cfg: Config, targetTemp: Option<real>): (r: Option<real>)
    ensures targetTemp.Some? && targetTemp.value != 0.0 ==> r == targetTemp
    ensures (targetTemp.None? || targetTemp.value == 0.0) && |cfg.presets| > 0 ==> r == Some(cfg.presets[0].1)
    ensures (targetTemp.None? || targetTemp.value == 0.0) && |cfg.presets| == 0 ==> r.None?
  {
    if targetTemp.Some? && targetTemp.value != 0.0 then targetTemp
    else if |cfg.presets| > 0 then Some(cfg.presets[0].1) else None
  }

  /** The requested initial mode is kept only when it is one of the offered modes. */
  function InitialMode(cfg: Config, low: Option<real>, high: Option<real>, initialMode: Option<HvacMode>): (r: Option<HvacMode>)
    ensures r.Some? ==> r == initialMode && r.value in HvacModes(cfg, low, high)
    ensures initialMode.Some? && initialMode.value in HvacModes(cfg, low, high) ==> r == initialMode
  {
    if initialMode.Some? && initialMode.value in HvacModes(cfg, low, high) then initialMode else None
  }

  function InitialFeatures(cfg: Config): Features
  {
    Features(targetTemperature := false, targetTemperatureRange := false,
             presetMode := |cfg.presets| > 0, auxHeat := false, turnOff := true)
  }

  /** The state right after construction: nothing measured, inactive, no
      preset, all switches off. */
  function Initial(cfg: Config, targetTemp: Option<real>, targetLow: Option<real>, targetHigh: Option<real>,
                   initialMode: Option<HvacMode>): (r: Thermo)
    ensures !r.active && r.curTemp.None? && r.curFloorTemp.None? && r.log == []
    ensures r.presetMode == PresetNone
    ensures !r.heaterOn && !r.auxOn && !r.coolerOn
  {
    Thermo(
      curTemp := None, curFloorTemp := None,
      targetTemp := targetTemp, targetLow := targetLow, targetHigh := targetHigh,
      savedTarget := InitialSavedTarget(cfg, targetTemp),
      savedLow := None, savedHigh := None,
      presetMode := PresetNone, active := false,
      hvacMode := InitialMode(cfg, targetLow, targetHigh, initialMode),
      features := InitialFeatures(cfg),
      heaterOn := false, auxOn := false, coolerOn := false,
      auxLastRun := None, log := [])
  }
}
