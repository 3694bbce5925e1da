/** DualSmartThermostat as an object whose methods update its fields in place.
    Every method is proved to leave the object in the state, and to raise the
    error, that the function of the same name in module Engine gives for the
    state before the call. Issued service calls are appended to `log`. */
module Thermostat {
  import opened Types
  import Engine

  class DualSmartThermostat {
    const cfg: Config

    var curTemp: Option<real>
    var curFloorTemp: Option<real>
    var targetTemp: Option<real>
    var targetLow: Option<real>
    var targetHigh: Option<real>
    var savedTarget: Option<real>
    var savedLow: Option<real>
    var savedHigh: Option<real>
    var presetMode: string
    var active: bool
    var hvacMode: Option<HvacMode>
    var features: Features
    var heaterOn: bool
    var auxOn: bool
    var coolerOn: bool
    var auxLastRun: Option<int>
    var log: seq<Command>

    /** The fields as one value. */
    function Model(): Thermo
      reads this
    {
      Thermo(curTemp, curFloorTemp, targetTemp, targetLow, targetHigh, savedTarget, savedLow, savedHigh,
             presetMode, active, hvacMode, features, heaterOn, auxOn, coolerOn, auxLastRun, log)
    }

    constructor (config: Config, target: Option<real>, low: Option<real>, high: Option<real>,
                 initialMode: Option<HvacMode>)
      ensures cfg == Engine.Normalised(config)
      ensures Model() == Engine.Initial(cfg, target, low, high, initialMode)
    {
      var c := Engine.Normalised(config);
      cfg := c;
      curTemp, curFloorTemp := None, None;
      targetTemp, targetLow, targetHigh := target, low, high;
      savedTarget, savedLow, savedHigh := Engine.InitialSavedTarget(c, target), None, None;
      presetMode, active := PresetNone, false;
      hvacMode := Engine.InitialMode(c, low, high, initialMode);
      features := Engine.InitialFeatures(c);
      heaterOn, auxOn, coolerOn := false, false, false;
      auxLastRun, log := None, [];
    }

    /** The switches changed state outside the thermostat (a manual toggle). */
    method SwitchesChanged(heater: bool, aux: bool, cooler: bool)
      modifies this
      ensures Model() == old(Model()).(heaterOn := heater, auxOn := aux, coolerOn := cooler)
    {
      heaterOn, auxOn, coolerOn := heater, aux, cooler;
    }

    // -------------------------------------------------------------------------
    // Guarded actuator helpers

    method HeaterTurnOn()
      modifies this
      ensures Model() == Engine.HeaterTurnOn(old(Model()))
    {
      if !heaterOn {
        log := log + [SwitchOn(Heater)];
        heaterOn := true;
      }
    }

    method HeaterTurnOff()
      modifies this
      ensures Model() == Engine.HeaterTurnOff(old(Model()))
    {
      if heaterOn {
        log := log + [SwitchOff(Heater)];
        heaterOn := false;
      }
    }

    method AuxHeaterTurnOn(today: int)
      modifies this
      ensures Model() == Engine.AuxHeaterTurnOn(cfg, old(Model()), today)
    {
      if cfg.hasAuxHeater && !Engine.IsAuxHeat(cfg, auxOn) {
        log := log + [SwitchOn(AuxHeater)];
        auxOn := true;
        auxLastRun := Some(today);
      }
    }

    method AuxHeaterTurnOff()
      modifies this
      ensures Model() == Engine.AuxHeaterTurnOff(cfg, old(Model()))
    {
      if Engine.IsAuxHeat(cfg, auxOn) {
        log := log + [SwitchOff(AuxHeater)];
        auxOn := false;
      }
    }

    method CoolerTurnOn()
      modifies this
      ensures Model() == Engine.CoolerTurnOn(cfg, old(Model()))
    {
      if cfg.hasCooler && !Engine.IsCoolerActive(cfg, coolerOn) {
        log := log + [SwitchOn(Cooler)];
        coolerOn := true;
      }
    }

    method CoolerTurnOff()
      modifies this
      ensures Model() == Engine.CoolerTurnOff(cfg, old(Model()))
    {
      if Engine.IsCoolerActive(cfg, coolerOn) {
        log := log + [SwitchOff(Cooler)];
        coolerOn := false;
      }
    }

    /** The user-facing aux heat switches. */
    method TurnAuxHeatOn(today: int)
      modifies this
      ensures Model() == Engine.AuxHeaterTurnOn(cfg, old(Model()), today)
    {
      AuxHeaterTurnOn(today);
    }

    method TurnAuxHeatOff()
      modifies this
      ensures Model() == Engine.AuxHeaterTurnOff(cfg, old(Model()))
    {
      AuxHeaterTurnOff();
    }

    // -------------------------------------------------------------------------
    // Activation latch

    method SetSelfActive()
      modifies this
      ensures Model() == Engine.SetSelfActive(old(Model()))
    {
      if !active && curTemp.Some? && targetTemp.Some? && hvacMode != Some(Off) {
        active := true;
      }
    }

    // -------------------------------------------------------------------------
    // Heating controller

    method ControlHeating(env: Env, time: Option<nat>, force: bool) returns (err: Option<Error>)
      modifies this
      ensures Reply(Model(), err) == Engine.ControlHeating(cfg, old(Model()), env, time, force)
    {
      SetSelfActive();
      if !Engine.NeedsControl(cfg, active, hvacMode, env, time, force, false, false) {
        return None;
      }
      if curTemp.None? || targetTemp.None? {
        return Some(MissingTemperature);
      }
      var tooCold := Engine.TooCold(curTemp.value, targetTemp.value, cfg.coldTolerance);
      var tooHot := Engine.TooHot(curTemp.value, targetTemp.value, cfg.hotTolerance);
      CoolerTurnOff();
      if heaterOn || Engine.IsAuxHeat(cfg, auxOn) {
        HeaterWhenOn(env, tooHot, time);
      } else {
        HeaterWhenOff(env, tooCold, time);
      }
      err := None;
    }

    method HeaterWhenOn(env: Env, tooHot: bool, time: Option<nat>)
      modifies this
      ensures Model() == Engine.HeaterWhenOn(cfg, old(Model()), env, tooHot, time)
    {
      var floorHot := Engine.IsFloorHot(cfg, curFloorTemp);
      var floorCold := Engine.IsFloorCold(cfg, curFloorTemp);
      if (tooHot || floorHot || env.anyOpeningOpen) && !floorCold {
        HeaterTurnOff();
        AuxHeaterTurnOff();
      } else if Engine.StagesAux(cfg, auxOn, env) {
        if !cfg.auxDualMode {
          HeaterTurnOff();
        }
        AuxHeaterTurnOn(env.today);
      } else if time.Some? && !env.anyOpeningOpen && !floorHot {
        HeaterTurnOn();
      }
    }

    method HeaterWhenOff(env: Env, tooCold: bool, time: Option<nat>)
      modifies this
      ensures Model() == Engine.HeaterWhenOff(cfg, old(Model()), env, tooCold, time)
    {
      var floorHot := Engine.IsFloorHot(cfg, curFloorTemp);
      var floorCold := Engine.IsFloorCold(cfg, curFloorTemp);
      if (tooCold && !env.anyOpeningOpen && !floorHot) || floorCold {
        var ranToday := Engine.HasAuxHeatingRanToday(cfg, auxLastRun, env.today);
        if cfg.auxDualMode {
          HeaterTurnOn();
        }
        if ranToday {
          AuxHeaterTurnOn(env.today);
        } else {
          HeaterTurnOn();
        }
      } else if time.Some? || env.anyOpeningOpen || floorHot {
        HeaterTurnOff();
      }
    }

    /** The aux heater timeout callback. */
    method ControlHeatingForced(env: Env, time: nat) returns (err: Option<Error>)
      modifies this
      ensures Reply(Model(), err) == Engine.ControlHeatingForced(cfg, old(Model()), env, time)
    {
      err := ControlHeating(env, Some(time), true);
    }

    // -------------------------------------------------------------------------
    // Cooling controller

    method ControlledOn()
      modifies this
      ensures Model() == Engine.ControlledOn(cfg, old(Model()))
    {
      if cfg.hasCooler {
        CoolerTurnOn();
      } else {
        HeaterTurnOn();
      }
    }

    method ControlledOff()
      modifies this
      ensures Model() == Engine.ControlledOff(cfg, old(Model()))
    {
      if cfg.hasCooler {
        CoolerTurnOff();
      } else {
        HeaterTurnOff();
      }
    }

    method ControlCooling(env: Env, time: Option<nat>, force: bool) returns (err: Option<Error>)
      modifies this
      ensures Reply(Model(), err) == Engine.ControlCooling(cfg, old(Model()), env, time, force)
    {
      SetSelfActive();
      if !Engine.NeedsControl(cfg, active, hvacMode, env, time, force, false, true) {
        return None;
      }
      if curTemp.None? || targetTemp.None? {
        return Some(MissingTemperature);
      }
      var tooCold := Engine.TooCold(curTemp.value, targetTemp.value, cfg.coldTolerance);
      var tooHot := Engine.TooHot(curTemp.value, targetTemp.value, cfg.hotTolerance);
      CoolingDecide(env.anyOpeningOpen, tooCold, tooHot, time);
      err := None;
    }

    method CoolingDecide(open: bool, tooCold: bool, tooHot: bool, time: Option<nat>)
      modifies this
      ensures Model() == Engine.CoolingDecide(cfg, old(Model()), open, tooCold, tooHot, time)
    {
      var deviceActive := if cfg.hasCooler then Engine.IsCoolerActive(cfg, coolerOn) else heaterOn;
      if deviceActive {
        if tooCold || open {
          ControlledOff();
        } else if time.Some? && !open {
          ControlledOn();
        }
      } else {
        if tooHot && !open {
          ControlledOn();
        } else if time.Some? || open {
          ControlledOff();
        }
      }
    }

    // -------------------------------------------------------------------------
    // Heat-cool controller

    method HeaterToggle(tooCold: bool, tooHot: bool)
      modifies this
      ensures Model() == Engine.HeaterToggle(old(Model()), tooCold, tooHot)
    {
      if tooCold {
        HeaterTurnOn();
      } else if tooHot {
        HeaterTurnOff();
      }
    }

    method CoolerToggle(tooCold: bool, tooHot: bool)
      modifies this
      ensures Model() == Engine.CoolerToggle(cfg, old(Model()), tooCold, tooHot)
    {
      if tooCold {
        CoolerTurnOff();
      } else if tooHot {
        CoolerTurnOn();
      }
    }

    method AutoToggle(open: bool, tooCold: bool, tooHot: bool)
      modifies this
      ensures Model() == Engine.AutoToggle(cfg, old(Model()), open, tooCold, tooHot)
    {
      if tooCold {
        if !open {
          HeaterTurnOn();
        }
        CoolerTurnOff();
      } else if tooHot {
        if !open {
          CoolerTurnOn();
        }
        HeaterTurnOff();
      } else {
        HeaterTurnOff();
        CoolerTurnOff();
      }
    }

    method HeaterCoolerToggle(open: bool, v: Engine.Verdict)
      modifies this
      ensures Model() == Engine.HeaterCoolerToggle(cfg, old(Model()), open, v)
    {
      match v.device
      case HeaterBound => HeaterToggle(v.tooCold, v.tooHot);
      case CoolerBound => CoolerToggle(v.tooCold, v.tooHot);
      case AutoBound => AutoToggle(open, v.tooCold, v.tooHot);
    }

    method ControlHeatCool(env: Env, time: Option<nat>, force: bool) returns (err: Option<Error>)
      modifies this
      ensures Reply(Model(), err) == Engine.ControlHeatCool(cfg, old(Model()), env, time, force)
    {
      if !active && Engine.ConfiguredForHeatCool(cfg, targetLow, targetHigh) && curTemp.Some? {
        active := true;
      }
      if !Engine.NeedsControl(cfg, active, hvacMode, env, time, force, true, false) {
        return None;
      }
      var verdict := Engine.ColdOrHot(cfg, Model());
      if verdict.None? {
        return Some(MissingTemperature);
      }
      var v := verdict.value;
      HeatCoolDecide(env, v);
      if time.Some? {
        HeaterCoolerToggle(env.anyOpeningOpen, v);
      }
      err := None;
    }

    method HeatCoolDecide(env: Env, v: Engine.Verdict)
      modifies this
      ensures Model() == Engine.HeatCoolDecide(cfg, old(Model()), env, v)
    {
      if env.anyOpeningOpen {
        HeaterTurnOff();
        CoolerTurnOff();
      } else if Engine.IsFloorHot(cfg, curFloorTemp) {
        HeaterTurnOff();
      } else if Engine.IsFloorCold(cfg, curFloorTemp) {
        HeaterTurnOn();
      } else {
        HeaterCoolerToggle(env.anyOpeningOpen, v);
      }
    }

    // -------------------------------------------------------------------------
    // Dispatcher and triggers

    method ControlClimate(env: Env, time: Option<nat>, force: bool) returns (err: Option<Error>)
      modifies this
      ensures Reply(Model(), err) == Engine.ControlClimate(cfg, old(Model()), env, time, force)
    {
      if cfg.hasCooler && hvacMode == Some(HeatCool) {
        err := ControlHeatCool(env, time, force);
      } else if cfg.acMode || (cfg.hasCooler && hvacMode == Some(Cool)) {
        err := ControlCooling(env, time, force);
      } else {
        err := ControlHeating(env, time, force);
      }
    }

    /** The opening timeout callback. */
    method ControlClimateForced(env: Env, time: nat) returns (err: Option<Error>)
      modifies this
      ensures Reply(Model(), err) == Engine.ControlClimateForced(cfg, old(Model()), env, time)
    {
      err := ControlClimate(env, Some(time), true);
    }

    method SensorChanged(reading: Reading, env: Env) returns (err: Option<Error>)
      modifies this
      ensures Reply(Model(), err) == Engine.SensorChanged(cfg, old(Model()), reading, env)
    {
      if reading.Unavailable? {
        return None;
      }
      if reading.Finite? {
        curTemp := Some(reading.value);
      }
      err := ControlClimate(env, None, false);
    }

    method FloorSensorChanged(reading: Reading, env: Env) returns (err: Option<Error>)
      modifies this
      ensures Reply(Model(), err) == Engine.FloorSensorChanged(cfg, old(Model()), reading, env)
    {
      if reading.Unavailable? {
        return None;
      }
      if reading.Finite? {
        curFloorTemp := Some(reading.value);
      }
      err := ControlClimate(env, None, false);
    }

    method OpeningChanged(hasTimeout: bool, report: OpeningReport, env: Env) returns (err: Option<Error>)
      modifies this
      ensures Reply(Model(), err) == Engine.OpeningChanged(cfg, old(Model()), hasTimeout, report, env)
    {
      if report.Unreported? || (hasTimeout && report.Opened?) {
        return None;
      }
      err := ControlClimate(env, None, true);
    }

    // -------------------------------------------------------------------------
    // Mode changes

    method CoolEntryShutoff()
      modifies this
      ensures Model() == Engine.CoolEntryShutoff(cfg, old(Model()))
    {
      if !cfg.acMode && (heaterOn || Engine.IsAuxHeat(cfg, auxOn) || Engine.IsCoolerActive(cfg, coolerOn)) {
        HeaterTurnOff();
        if Engine.AuxHeatingConfigured(cfg) {
          AuxHeaterTurnOff();
        }
      }
    }

    method SetHvacMode(mode: HvacMode, env: Env) returns (err: Option<Error>)
      modifies this
      ensures Reply(Model(), err) == Engine.SetHvacMode(cfg, old(Model()), mode, env)
    {
      err := None;
      match mode
      case Heat => err := EnterHeat(env);
      case Cool => err := EnterCool(env);
      case HeatCool =>
        hvacMode := Some(HeatCool);
        err := ControlHeatCool(env, None, true);
      case Off => EnterOff();
      case _ =>
    }

    method EnterHeat(env: Env) returns (err: Option<Error>)
      modifies this
      ensures Reply(Model(), err) == Engine.EnterHeat(cfg, old(Model()), env)
    {
      hvacMode := Some(Heat);
      err := ControlHeating(env, None, true);
      if err.None? && Engine.IsCoolerActive(cfg, coolerOn) {
        CoolerTurnOff();
      }
    }

    method EnterCool(env: Env) returns (err: Option<Error>)
      modifies this
      ensures Reply(Model(), err) == Engine.EnterCool(cfg, old(Model()), env)
    {
      hvacMode := Some(Cool);
      err := ControlCooling(env, None, true);
      if err.None? {
        CoolEntryShutoff();
      }
    }

    method EnterOff()
      modifies this
      ensures Model() == Engine.EnterOff(cfg, old(Model()))
    {
      hvacMode := Some(Off);
      ghost var s1 := Model();
      if heaterOn || Engine.IsAuxHeat(cfg, auxOn) || Engine.IsCoolerActive(cfg, coolerOn) {
        HeaterTurnOff();
      }
      ghost var s2 := Model();
      assert s2 == if Engine.IsDeviceActive(cfg, s1) then Engine.HeaterTurnOff(s1) else s1;
      if cfg.hasCooler {
        CoolerTurnOff();
      }
      assert Model() == if cfg.hasCooler then Engine.CoolerTurnOff(cfg, s2) else s2;
      if Engine.AuxHeatingConfigured(cfg) {
        AuxHeaterTurnOff();
      }
    }

    // -------------------------------------------------------------------------
    // Setpoints and presets

    method SetTemperature(temperature: Option<real>, low: Option<real>, high: Option<real>, env: Env)
      returns (err: Option<Error>)
      modifies this
      ensures Reply(Model(), err) == Engine.SetTemperature(cfg, old(Model()), temperature, low, high, env)
    {
      var applied := ApplySetpoints(temperature, low, high);
      if !applied {
        return None;
      }
      err := ControlClimate(env, None, true);
    }

    /** Installs the requested setpoints; false when the request lacks the
        values the current mode needs. */
    method ApplySetpoints(temperature: Option<real>, low: Option<real>, high: Option<real>) returns (applied: bool)
      modifies this
      ensures applied ==> Engine.NewSetpoints(old(Model()), temperature, low, high) == Some(Model())
      ensures !applied ==> Engine.NewSetpoints(old(Model()), temperature, low, high).None? && Model() == old(Model())
    {
      if Engine.IsTargetMode(features) {
        if temperature.None? {
          return false;
        }
        targetTemp := temperature;
      } else if Engine.IsRangeMode(features) {
        if low.None? || high.None? {
          return false;
        }
        targetTemp, targetLow, targetHigh := temperature, low, high;
      }
      applied := true;
    }

    method PresetsWhenNoPresetMode()
      modifies this
      ensures Model() == Engine.PresetsWhenNoPresetMode(old(Model()))
    {
      presetMode := PresetNone;
      if Engine.IsRangeMode(features) {
        targetLow := savedLow;
        targetHigh := savedHigh;
      } else {
        targetTemp := savedTarget;
      }
    }

    method PresetsWhenHavePresetMode(name: string) returns (err: Option<Error>)
      modifies this
      ensures Reply(Model(), err) == Engine.PresetsWhenHavePresetMode(cfg, old(Model()), name)
    {
      if presetMode == PresetNone {
        SaveSetpoints();
      }
      err := ApplyPreset(name);
    }

    method ApplyPreset(name: string) returns (err: Option<Error>)
      modifies this
      ensures Reply(Model(), err) == Engine.ApplyPreset(cfg, old(Model()), name)
    {
      if Engine.IsRangeMode(features) {
        var entry := Engine.Lookup(cfg.presetsRange, name);
        if entry.None? {
          return Some(MissingPresetEntry(name));
        }
        targetLow, targetHigh := Some(entry.value.0), Some(entry.value.1);
      } else {
        var entry := Engine.Lookup(cfg.presets, name);
        if entry.None? {
          return Some(MissingPresetEntry(name));
        }
        targetTemp := Some(entry.value);
      }
      presetMode := name;
      err := None;
    }

    method SaveSetpoints()
      modifies this
      ensures Model() == Engine.SaveSetpoints(old(Model()))
    {
      if Engine.IsRangeMode(features) {
        savedLow, savedHigh := targetLow, targetHigh;
      } else {
        savedTarget := targetTemp;
      }
    }

    method SetPresetMode(name: string, env: Env) returns (err: Option<Error>)
      modifies this
      ensures Reply(Model(), err) == Engine.SetPresetMode(cfg, old(Model()), name, env)
    {
      if !Engine.IsPresetMode(cfg, name) {
        return Some(UnsupportedPreset(name));
      }
      if name == presetMode {
        return None;
      }
      if name == PresetNone {
        PresetsWhenNoPresetMode();
      } else {
        err := PresetsWhenHavePresetMode(name);
        if err.Some? {
          return;
        }
      }
      err := ControlClimate(env, None, true);
    }

    // -------------------------------------------------------------------------
    // Default setpoints and feature flags

    method SetDefaultTempsTargetMode()
      modifies this
      ensures Model() == Engine.DefaultTempsTargetMode(cfg, old(Model()))
    {
      if targetTemp.Some? {
        return;
      }
      if cfg.acMode || hvacMode == Some(Cool) {
        if targetHigh.None? {
          targetTemp := Some(Engine.MaxTemp(cfg));
        } else {
          targetTemp := targetHigh;
        }
        return;
      }
      if targetLow.None? {
        targetTemp := Some(Engine.MinTemp(cfg));
      } else {
        targetTemp := targetLow;
      }
    }

    method SetDefaultTempsRangeMode()
      modifies this
      ensures Model() == Engine.DefaultTempsRangeMode(cfg, old(Model()))
    {
      if targetLow.Some? && targetHigh.Some? {
        return;
      }
      if targetTemp.None? {
        targetTemp := Some(Engine.MinTemp(cfg));
        targetLow := Some(Engine.MinTemp(cfg));
        targetHigh := Some(Engine.MaxTemp(cfg));
        return;
      }
      var t := targetTemp.value;
      var low, high := t, t;
      if t + PrecisionWhole >= Engine.MaxTemp(cfg) {
        low := low - PrecisionWhole;
      } else {
        high := high + PrecisionWhole;
      }
      targetLow, targetHigh := Some(low), Some(high);
    }

    method SetDefaultTargetTemps()
      modifies this
      ensures Model() == Engine.DefaultTargetTemps(cfg, old(Model()))
    {
      if Engine.IsTargetMode(features) {
        SetDefaultTempsTargetMode();
      } else if Engine.IsRangeMode(features) {
        SetDefaultTempsRangeMode();
      }
    }

    method SetSupportFlags()
      modifies this
      ensures Model() == Engine.SetSupportFlags(cfg, old(Model()))
    {
      SwitchFlags();
      SetDefaultTargetTemps();
    }

    method SwitchFlags()
      modifies this
      ensures Model() == Engine.SwitchFlags(cfg, old(Model()))
    {
      if !Engine.ConfiguredForHeatCool(cfg, targetLow, targetHigh) || hvacMode == Some(Cool) || hvacMode == Some(Heat) {
        if Engine.IsRangeMode(features) && presetMode != PresetNone {
          PresetsWhenNoPresetMode();
        }
        features := Engine.TargetModeFeatures(cfg);
      } else {
        if Engine.IsTargetMode(features) && presetMode != PresetNone {
          PresetsWhenNoPresetMode();
        }
        features := Engine.RangeModeFeatures(cfg);
      }
    }
  }
}
