/** Properties of the decision engine: the tolerance bands, the control gate
    and activation latch, the floor and window interlocks of each controller,
    the heat-cool exclusivity, idempotence of the controllers on an unchanged
    world, the preset round trip, and the two defects of the source together
    with their corrections. */
module Properties {
  import opened Types
  import opened Engine

  // ---------------------------------------------------------------------------
  // Shared facts

  /** Commands issued over two consecutive steps are those of the first step
      followed by those of the second. */
  lemma IssuedSplit(a: Thermo, b: Thermo, c: Thermo)
    requires Extends(a, b) && Extends(b, c)
    ensures Extends(a, c)
    ensures Issued(a, c) == Issued(a, b) + Issued(b, c)
  {
    assert c.log == b.log + Issued(b, c);
    assert b.log == a.log + Issued(a, b);
    assert c.log == a.log + (Issued(a, b) + Issued(b, c));
  }

  /** The controller runs: it is or becomes active, the mode is not Off and
      the minimum-cycle guard does not hold it back. */
  predicate Runs(cfg: Config, s: Thermo, time: Option<nat>, force: bool)
  {
    s.curTemp.Some? && s.targetTemp.Some? && s.hvacMode != Some(Off) &&
    (force || time.Some? || !CycleGuardOn(cfg))
  }

  /** The heating controller passes its gate with both temperatures known. */
  predicate HeatingPasses(cfg: Config, s: Thermo, env: Env, time: Option<nat>, force: bool)
  {
    s.curTemp.Some? && s.targetTemp.Some? &&
    NeedsControl(cfg, SetSelfActive(s).active, s.hvacMode, env, time, force, false, false)
  }

  // ---------------------------------------------------------------------------
  // Tolerance predicates

  /** With a positive dead band a temperature is never both too cold and too
      hot for the same target. */
  lemma ToleranceBandsExclusive(cfg: Config, cur: real, target: real)
    requires cfg.coldTolerance + cfg.hotTolerance > 0.0
    ensures !(TooCold(cur, target, cfg.coldTolerance) && TooHot(cur, target, cfg.hotTolerance))
  {
  }

  /** The edges of the bands: with target 19 and tolerances of 0.5 the heater
      is called for at 18.5 but not at 18.6, and the room is too hot at 19.5
      but not at 19.4. */
  lemma ToleranceBoundaries()
    ensures TooCold(18.5, 19.0, 0.5) && !TooCold(18.6, 19.0, 0.5)
    ensures TooHot(19.5, 19.0, 0.5) && !TooHot(19.4, 19.0, 0.5)
  {
  }

  // ---------------------------------------------------------------------------
  // Control gate and activation latch

  /** In mode Off no controller issues a command. */
  lemma NoCommandInModeOff(cfg: Config, s: Thermo, env: Env, time: Option<nat>, force: bool)
    requires s.hvacMode == Some(Off)
    ensures ControlClimate(cfg, s, env, time, force).state.log == s.log
  {
  }

  /** The latch is set only once the temperatures the controller needs are
      known, and once set it stays set. */
  lemma ActivationOnlyWhenKnown(cfg: Config, s: Thermo, env: Env, time: Option<nat>, force: bool)
    ensures s.active ==> ControlClimate(cfg, s, env, time, force).state.active
    ensures ControlClimate(cfg, s, env, time, force).state.active ==>
              s.active ||
              (if cfg.hasCooler && s.hvacMode == Some(HeatCool)
               then s.curTemp.Some? && ConfiguredForHeatCool(cfg, s.targetLow, s.targetHigh)
               else CanActivate(s))
  {
  }

  /** Before activation and with the temperatures still unknown nothing is
      switched. */
  lemma InactiveIsQuiet(cfg: Config, s: Thermo, env: Env, time: Option<nat>, force: bool)
    requires !s.active && s.curTemp.None?
    ensures ControlClimate(cfg, s, env, time, force) == Reply(s, None)
  {
  }

  /** A freshly built thermostat stays quiet until a temperature arrives. */
  lemma InitialIsQuiet(cfg: Config, target: Option<real>, low: Option<real>, high: Option<real>,
                       mode: Option<HvacMode>, env: Env, time: Option<nat>, force: bool)
    ensures var s := Initial(cfg, target, low, high, mode);
            ControlClimate(cfg, s, env, time, force) == Reply(s, None)
  {
    InactiveIsQuiet(cfg, Initial(cfg, target, low, high, mode), env, time, force);
  }

  /** An unforced sensor-driven run of the heating controller is held back
      while the heater has not yet held its state for the minimum cycle. */
  lemma CycleGuardHoldsHeating(cfg: Config, s: Thermo, env: Env)
    requires CycleGuardOn(cfg) && !env.heaterRanLongEnough
    ensures ControlHeating(cfg, s, env, None, false) == Reply(SetSelfActive(s), None)
  {
  }

  /** In heat-cool mode the cycle guard lets the controller through when
      either switch has held its state long enough. */
  lemma CycleGuardDualPasses(cfg: Config, s: Thermo, env: Env)
    requires cfg.hasCooler && (env.heaterRanLongEnough || env.coolerRanLongEnough)
    requires s.active && s.hvacMode == Some(HeatCool)
    ensures NeedsControl(cfg, s.active, s.hvacMode, env, None, false, true, false)
  {
  }

  // ---------------------------------------------------------------------------
  // Heating controller

  /** One decision of the heating controller once the cooler is off: the
      branch for a running heating stage or the one for idle heating. */
  function HeatStep(cfg: Config, s: Thermo, env: Env, tooCold: bool, tooHot: bool, time: Option<nat>): Thermo
  {
    if s.heaterOn || IsAuxHeat(cfg, s.auxOn) then HeaterWhenOn(cfg, s, env, tooHot, time)
    else HeaterWhenOff(cfg, s, env, tooCold, time)
  }

  /** A heating run that passes the gate is one `HeatStep` after the cooler
      is switched off. */
  lemma HeatingRuns(cfg: Config, s: Thermo, env: Env, time: Option<nat>, force: bool)
    requires HeatingPasses(cfg, s, env, time, force)
    ensures var s1 := CoolerTurnOff(cfg, SetSelfActive(s));
            ControlHeating(cfg, s, env, time, force) ==
              Reply(HeatStep(cfg, s1, env, TooCold(s.curTemp.value, s.targetTemp.value, cfg.coldTolerance),
                             TooHot(s.curTemp.value, s.targetTemp.value, cfg.hotTolerance), time), None)
  {
  }

  /** The commands of a heating run: those of switching the cooler off, then
      those of the decision. */
  lemma HeatingIssued(cfg: Config, s: Thermo, env: Env, time: Option<nat>, force: bool)
    requires HeatingPasses(cfg, s, env, time, force)
    ensures var s1 := CoolerTurnOff(cfg, SetSelfActive(s));
            var r := ControlHeating(cfg, s, env, time, force);
            Extends(s1, r.state) &&
            Issued(s, r.state) == (if IsCoolerActive(cfg, s.coolerOn) then [SwitchOff(Cooler)] else []) + Issued(s1, r.state)
  {
    var s0 := SetSelfActive(s);
    var s1 := CoolerTurnOff(cfg, s0);
    var r := ControlHeating(cfg, s, env, time, force);
    HeatingRuns(cfg, s, env, time, force);
    IssuedSplit(s, s1, r.state);
    assert Issued(s, s1) == Issued(s0, s1);
  }

  /** On a cold floor a heating decision leaves a stage on and, without an
      aux hand-over, switches no stage off. */
  lemma FloorColdStep(cfg: Config, s: Thermo, env: Env, tooCold: bool, tooHot: bool, time: Option<nat>)
    requires IsFloorCold(cfg, s.curFloorTemp)
    ensures var r := HeatStep(cfg, s, env, tooCold, tooHot, time);
            r.heaterOn || IsAuxHeat(cfg, r.auxOn)
    ensures var r := HeatStep(cfg, s, env, tooCold, tooHot, time);
            !(AuxHeatingConfigured(cfg) && env.firstStageTimedOut) ==>
              SwitchOff(Heater) !in Issued(s, r) && SwitchOff(AuxHeater) !in Issued(s, r)
  {
    if s.heaterOn || IsAuxHeat(cfg, s.auxOn) {
      FloorColdWhenOn(cfg, s, env, tooHot, time);
    } else {
      FloorColdWhenOff(cfg, s, env, tooCold, time);
    }
  }

  lemma FloorColdWhenOn(cfg: Config, s: Thermo, env: Env, tooHot: bool, time: Option<nat>)
    requires IsFloorCold(cfg, s.curFloorTemp) && (s.heaterOn || IsAuxHeat(cfg, s.auxOn))
    ensures var r := HeaterWhenOn(cfg, s, env, tooHot, time);
            (r.heaterOn || IsAuxHeat(cfg, r.auxOn)) &&
            (!(AuxHeatingConfigured(cfg) && env.firstStageTimedOut) ==> Issued(s, r) <= [SwitchOn(Heater)])
  {
  }

  lemma FloorColdWhenOff(cfg: Config, s: Thermo, env: Env, tooCold: bool, time: Option<nat>)
    requires IsFloorCold(cfg, s.curFloorTemp)
    ensures var r := HeaterWhenOff(cfg, s, env, tooCold, time);
            (r.heaterOn || IsAuxHeat(cfg, r.auxOn)) &&
            forall c :: c in Issued(s, r) ==> c.SwitchOn?
  {
    if cfg.auxDualMode {
      IssuedSplit(s, HeaterTurnOn(s), HeaterWhenOff(cfg, s, env, tooCold, time));
    }
  }

  /** A cold floor keeps the heating on: after a run at least one heating
      stage is on, whatever the room temperature, a hot floor or an open
      window; and unless the first stage hands over to the aux heater, no
      heating stage is switched off. */
  lemma FloorColdKeepsHeating(cfg: Config, s: Thermo, env: Env, time: Option<nat>, force: bool)
    requires Runs(cfg, s, time, force) && IsFloorCold(cfg, s.curFloorTemp)
    ensures var r := ControlHeating(cfg, s, env, time, force);
            r.error.None? && (r.state.heaterOn || IsAuxHeat(cfg, r.state.auxOn))
    ensures var r := ControlHeating(cfg, s, env, time, force);
            !(AuxHeatingConfigured(cfg) && env.firstStageTimedOut) ==>
              SwitchOff(Heater) !in Issued(s, r.state) && SwitchOff(AuxHeater) !in Issued(s, r.state)
  {
    var s1 := CoolerTurnOff(cfg, SetSelfActive(s));
    HeatingRuns(cfg, s, env, time, force);
    HeatingIssued(cfg, s, env, time, force);
    FloorColdStep(cfg, s1, env, TooCold(s.curTemp.value, s.targetTemp.value, cfg.coldTolerance),
                  TooHot(s.curTemp.value, s.targetTemp.value, cfg.hotTolerance), time);
  }

  /** With the floor not too cold, a hot floor or an open window stops both
      heating stages. */
  lemma HotFloorOrOpenStopsHeating(cfg: Config, s: Thermo, env: Env, time: Option<nat>, force: bool)
    requires Runs(cfg, s, time, force) && !IsFloorCold(cfg, s.curFloorTemp)
    requires IsFloorHot(cfg, s.curFloorTemp) || env.anyOpeningOpen
    ensures var r := ControlHeating(cfg, s, env, time, force);
            r.error.None? && !r.state.heaterOn && !IsAuxHeat(cfg, r.state.auxOn)
  {
    HeatingRuns(cfg, s, env, time, force);
  }

  /** Asking for a target above the room temperature in heat mode switches
      the heater on with one command. */
  lemma SetTargetAboveRoomStartsHeater(cfg: Config, s: Thermo, t: real, env: Env)
    requires !cfg.acMode && !(cfg.hasCooler && s.hvacMode in {Some(Cool), Some(HeatCool)})
    requires IsTargetMode(s.features) && s.hvacMode != Some(Off)
    requires s.curTemp.Some? && TooCold(s.curTemp.value, t, cfg.coldTolerance)
    requires !env.anyOpeningOpen && !IsFloorHot(cfg, s.curFloorTemp)
    requires !s.heaterOn && !IsAuxHeat(cfg, s.auxOn) && !IsCoolerActive(cfg, s.coolerOn)
    requires !HasAuxHeatingRanToday(cfg, s.auxLastRun, env.today)
    ensures var r := SetTemperature(cfg, s, Some(t), None, None, env);
            r.error.None? && r.state.heaterOn && r.state.targetTemp == Some(t) &&
            r.state.log == s.log + [SwitchOn(Heater)]
  {
    var s1 := s.(targetTemp := Some(t));
    HeatingRuns(cfg, s1, env, None, true);
  }

  /** In one heating decision the aux heater is switched on only after the
      first-stage timeout or when it already ran today. */
  lemma AuxStep(cfg: Config, s: Thermo, env: Env, tooCold: bool, tooHot: bool, time: Option<nat>)
    ensures SwitchOn(AuxHeater) in Issued(s, HeatStep(cfg, s, env, tooCold, tooHot, time)) ==>
              env.firstStageTimedOut || s.auxLastRun == Some(env.today)
  {
    var r := HeatStep(cfg, s, env, tooCold, tooHot, time);
    if s.heaterOn || IsAuxHeat(cfg, s.auxOn) {
      if !cfg.auxDualMode && StagesAux(cfg, s.auxOn, env) {
        IssuedSplit(s, HeaterTurnOff(s), r);
      }
    } else if cfg.auxDualMode && HasAuxHeatingRanToday(cfg, s.auxLastRun, env.today) &&
              ((tooCold && !env.anyOpeningOpen && !IsFloorHot(cfg, s.curFloorTemp)) || IsFloorCold(cfg, s.curFloorTemp)) {
      IssuedSplit(s, HeaterTurnOn(s), r);
    }
  }

  /** Aux staging needs the first-stage timeout: the aux heater is switched
      on only after the timeout or when it already ran today. */
  lemma AuxNeedsTimeoutOrRunToday(cfg: Config, s: Thermo, env: Env, time: Option<nat>, force: bool)
    ensures var r := ControlHeating(cfg, s, env, time, force);
            SwitchOn(AuxHeater) in Issued(s, r.state) ==>
              env.firstStageTimedOut || s.auxLastRun == Some(env.today)
  {
    var r := ControlHeating(cfg, s, env, time, force);
    if r.state.log != s.log {
      assert HeatingPasses(cfg, s, env, time, force);
      var s1 := CoolerTurnOff(cfg, SetSelfActive(s));
      HeatingRuns(cfg, s, env, time, force);
      HeatingIssued(cfg, s, env, time, force);
      AuxStep(cfg, s1, env, TooCold(s.curTemp.value, s.targetTemp.value, cfg.coldTolerance),
              TooHot(s.curTemp.value, s.targetTemp.value, cfg.hotTolerance), time);
    }
  }

  /** Once the first stage has run for the aux timeout, a running heater in a
      room that is not too hot, with a floor that is not hot and the windows
      closed, hands over: the aux heater is on afterwards and the heater
      stays on only in dual mode. */
  lemma AuxHandOver(cfg: Config, s: Thermo, env: Env, time: Option<nat>, force: bool)
    requires HeatingPasses(cfg, s, env, time, force)
    requires AuxHeatingConfigured(cfg) && env.firstStageTimedOut
    requires s.heaterOn && !IsAuxHeat(cfg, s.auxOn)
    requires !TooHot(s.curTemp.value, s.targetTemp.value, cfg.hotTolerance)
    requires !IsFloorHot(cfg, s.curFloorTemp) && !env.anyOpeningOpen
    ensures var r := ControlHeating(cfg, s, env, time, force);
            r.error.None? && IsAuxHeat(cfg, r.state.auxOn) && (r.state.heaterOn <==> cfg.auxDualMode) &&
            r.state.auxLastRun == Some(env.today)
  {
    HeatingRuns(cfg, s, env, time, force);
  }

  /** Idle heating in a cold room with the windows closed and a floor that is
      not hot starts the aux heater at once when it already ran today; the
      heater joins it only in dual mode. */
  lemma AuxPreferredSameDay(cfg: Config, s: Thermo, env: Env, time: Option<nat>, force: bool)
    requires HeatingPasses(cfg, s, env, time, force)
    requires HasAuxHeatingRanToday(cfg, s.auxLastRun, env.today)
    requires !s.heaterOn && !IsAuxHeat(cfg, s.auxOn)
    requires TooCold(s.curTemp.value, s.targetTemp.value, cfg.coldTolerance)
    requires !IsFloorHot(cfg, s.curFloorTemp) && !env.anyOpeningOpen
    ensures var r := ControlHeating(cfg, s, env, time, force);
            r.error.None? && IsAuxHeat(cfg, r.state.auxOn) && (r.state.heaterOn <==> cfg.auxDualMode)
  {
    HeatingRuns(cfg, s, env, time, force);
  }

  /** Without a keep-alive tick, with a dead band and no aux hand-over, a
      heating decision repeated on its own result changes nothing. */
  lemma HeatStepIdempotent(cfg: Config, s: Thermo, env: Env, tooCold: bool, tooHot: bool)
    requires !(tooCold && tooHot)
    requires !(AuxHeatingConfigured(cfg) && env.firstStageTimedOut)
    ensures var r := HeatStep(cfg, s, env, tooCold, tooHot, None);
            HeatStep(cfg, r, env, tooCold, tooHot, None) == r
  {
    if s.heaterOn || IsAuxHeat(cfg, s.auxOn) {
      WhenOnIdempotent(cfg, s, env, tooCold, tooHot);
    } else {
      WhenOffIdempotent(cfg, s, env, tooCold, tooHot);
    }
  }

  lemma WhenOnIdempotent(cfg: Config, s: Thermo, env: Env, tooCold: bool, tooHot: bool)
    requires !(tooCold && tooHot)
    requires !(AuxHeatingConfigured(cfg) && env.firstStageTimedOut)
    requires s.heaterOn || IsAuxHeat(cfg, s.auxOn)
    ensures var r := HeaterWhenOn(cfg, s, env, tooHot, None);
            HeatStep(cfg, r, env, tooCold, tooHot, None) == r
  {
  }

  lemma WhenOffIdempotent(cfg: Config, s: Thermo, env: Env, tooCold: bool, tooHot: bool)
    requires !(tooCold && tooHot)
    requires !(AuxHeatingConfigured(cfg) && env.firstStageTimedOut)
    requires !(s.heaterOn || IsAuxHeat(cfg, s.auxOn))
    ensures var r := HeaterWhenOff(cfg, s, env, tooCold, None);
            HeatStep(cfg, r, env, tooCold, tooHot, None) == r
  {
  }

  /** Run twice on an unchanged world (no keep-alive tick, a positive dead
      band, no aux hand-over pending) the heating controller changes nothing
      the second time. */
  lemma HeatingIdempotent(cfg: Config, s: Thermo, env: Env, force: bool)
    requires cfg.coldTolerance + cfg.hotTolerance > 0.0
    requires !(AuxHeatingConfigured(cfg) && env.firstStageTimedOut)
    requires ControlHeating(cfg, s, env, None, force).error.None?
    ensures var r := ControlHeating(cfg, s, env, None, force);
            ControlHeating(cfg, r.state, env, None, force) == r
  {
    var r := ControlHeating(cfg, s, env, None, force);
    var s0 := SetSelfActive(s);
    if NeedsControl(cfg, s0.active, s0.hvacMode, env, None, force, false, false) {
      assert HeatingPasses(cfg, s, env, None, force);
      var tooCold := TooCold(s.curTemp.value, s.targetTemp.value, cfg.coldTolerance);
      var tooHot := TooHot(s.curTemp.value, s.targetTemp.value, cfg.hotTolerance);
      var s1 := CoolerTurnOff(cfg, s0);
      HeatingRuns(cfg, s, env, None, force);
      HeatStepIdempotent(cfg, s1, env, tooCold, tooHot);
      assert SetSelfActive(r.state) == r.state;
      assert CoolerTurnOff(cfg, r.state) == r.state;
      HeatingRuns(cfg, r.state, env, None, force);
    }
  }

  // ---------------------------------------------------------------------------
  // Cooling controller

  /** The cooling controller passes its gate with both temperatures known. */
  predicate CoolingPasses(cfg: Config, s: Thermo, env: Env, time: Option<nat>, force: bool)
  {
    s.curTemp.Some? && s.targetTemp.Some? &&
    NeedsControl(cfg, SetSelfActive(s).active, s.hvacMode, env, time, force, false, true)
  }

  lemma CoolingRuns(cfg: Config, s: Thermo, env: Env, time: Option<nat>, force: bool)
    requires CoolingPasses(cfg, s, env, time, force)
    ensures ControlCooling(cfg, s, env, time, force) ==
              Reply(CoolingDecide(cfg, SetSelfActive(s), env.anyOpeningOpen,
                                  TooCold(s.curTemp.value, s.targetTemp.value, cfg.coldTolerance),
                                  TooHot(s.curTemp.value, s.targetTemp.value, cfg.hotTolerance), time), None)
  {
  }

  /** An open window never lets the controlled device start: afterwards it
      is off, and every command issued is a switch-off. */
  lemma OpenWindowStopsCooling(cfg: Config, s: Thermo, env: Env, time: Option<nat>, force: bool)
    requires CoolingPasses(cfg, s, env, time, force) && env.anyOpeningOpen
    ensures var r := ControlCooling(cfg, s, env, time, force);
            r.error.None? && !ControlledActive(cfg, r.state) &&
            forall c :: c in Issued(s, r.state) ==> c.SwitchOff?
  {
    CoolingRuns(cfg, s, env, time, force);
  }

  /** With the windows closed, an idle device starts when the room is too
      hot, and a running one stops when it is too cold. */
  lemma CoolingFollowsTemperature(cfg: Config, s: Thermo, env: Env, time: Option<nat>, force: bool)
    requires CoolingPasses(cfg, s, env, time, force) && !env.anyOpeningOpen
    ensures var r := ControlCooling(cfg, s, env, time, force);
            var tooCold := TooCold(s.curTemp.value, s.targetTemp.value, cfg.coldTolerance);
            var tooHot := TooHot(s.curTemp.value, s.targetTemp.value, cfg.hotTolerance);
            (!ControlledActive(cfg, s) && tooHot ==> ControlledActive(cfg, r.state)) &&
            (ControlledActive(cfg, s) && tooCold ==> !ControlledActive(cfg, r.state)) &&
            (!tooCold && !tooHot ==> (ControlledActive(cfg, r.state) <==> ControlledActive(cfg, s)))
  {
    CoolingRuns(cfg, s, env, time, force);
  }

  /** Without a cooler the heater entity is the air conditioner: it is the
      device the cooling controller switches on. */
  lemma HeaterActsAsCooler(cfg: Config, s: Thermo, env: Env, time: Option<nat>, force: bool)
    requires CoolingPasses(cfg, s, env, time, force) && !cfg.hasCooler && !env.anyOpeningOpen
    requires !s.heaterOn && TooHot(s.curTemp.value, s.targetTemp.value, cfg.hotTolerance)
    ensures var r := ControlCooling(cfg, s, env, time, force);
            r.state.heaterOn && Issued(s, r.state) == [SwitchOn(Heater)]
  {
    CoolingRuns(cfg, s, env, time, force);
  }

  /** Run twice on an unchanged world without a keep-alive tick and with a
      positive dead band, the cooling controller changes nothing the second
      time. */
  lemma CoolingIdempotent(cfg: Config, s: Thermo, env: Env, force: bool)
    requires cfg.coldTolerance + cfg.hotTolerance > 0.0
    requires ControlCooling(cfg, s, env, None, force).error.None?
    ensures var r := ControlCooling(cfg, s, env, None, force);
            ControlCooling(cfg, r.state, env, None, force) == r
  {
    var r := ControlCooling(cfg, s, env, None, force);
    var s0 := SetSelfActive(s);
    if NeedsControl(cfg, s0.active, s0.hvacMode, env, None, force, false, true) {
      assert CoolingPasses(cfg, s, env, None, force);
      CoolingRuns(cfg, s, env, None, force);
      assert SetSelfActive(r.state) == r.state;
      CoolingRuns(cfg, r.state, env, None, force);
    }
  }

  // ---------------------------------------------------------------------------
  // Heat-cool controller

  /** The heat-cool controller passes its gate with its verdict available. */
  predicate HeatCoolPasses(cfg: Config, s: Thermo, env: Env, time: Option<nat>, force: bool)
  {
    var s0 := HeatCoolActivate(cfg, s);
    NeedsControl(cfg, s0.active, s0.hvacMode, env, time, force, true, false) && ColdOrHot(cfg, s0).Some?
  }

  lemma HeatCoolRuns(cfg: Config, s: Thermo, env: Env, time: Option<nat>, force: bool)
    requires HeatCoolPasses(cfg, s, env, time, force)
    ensures var s0 := HeatCoolActivate(cfg, s);
            var v := ColdOrHot(cfg, s0).value;
            var s1 := HeatCoolDecide(cfg, s0, env, v);
            ControlHeatCool(cfg, s, env, time, force) ==
              Reply(if time.Some? then HeaterCoolerToggle(cfg, s1, env.anyOpeningOpen, v) else s1, None)
  {
  }

  /** The toggle strategy never leaves both devices on when they were not
      both on before. */
  lemma ToggleExclusive(cfg: Config, s: Thermo, open: bool, v: Verdict)
    requires !(s.heaterOn && IsCoolerActive(cfg, s.coolerOn))
    requires v.device == HeaterBound ==> !IsCoolerActive(cfg, s.coolerOn)
    requires v.device == CoolerBound ==> !s.heaterOn
    ensures var r := HeaterCoolerToggle(cfg, s, open, v);
            !(r.heaterOn && IsCoolerActive(cfg, r.coolerOn))
  {
  }

  /** Heater and cooler are never both on after a heat-cool run that started
      with at most one of them on, unless a cold floor forced the heater on
      with the windows closed. */
  lemma HeatCoolNeverBothOn(cfg: Config, s: Thermo, env: Env, time: Option<nat>, force: bool)
    requires !(s.heaterOn && IsCoolerActive(cfg, s.coolerOn))
    requires !IsFloorCold(cfg, s.curFloorTemp) || env.anyOpeningOpen
    ensures var r := ControlHeatCool(cfg, s, env, time, force);
            !(r.state.heaterOn && IsCoolerActive(cfg, r.state.coolerOn))
  {
    if HeatCoolPasses(cfg, s, env, time, force) {
      var s0 := HeatCoolActivate(cfg, s);
      var v := ColdOrHot(cfg, s0).value;
      var s1 := HeatCoolDecide(cfg, s0, env, v);
      HeatCoolRuns(cfg, s, env, time, force);
      ToggleExclusive(cfg, s0, env.anyOpeningOpen, v);
      if time.Some? {
        ToggleExclusive(cfg, s1, env.anyOpeningOpen, v);
      }
    }
  }

  /** With the windows closed a cold floor overrides the running cooler: the
      heater is switched on beside it. */
  lemma HeatCoolFloorColdBothOn(cfg: Config, s: Thermo, env: Env, force: bool)
    requires HeatCoolPasses(cfg, s, env, None, force)
    requires !env.anyOpeningOpen && IsFloorCold(cfg, s.curFloorTemp) && !IsFloorHot(cfg, s.curFloorTemp)
    requires !s.heaterOn && IsCoolerActive(cfg, s.coolerOn)
    ensures var r := ControlHeatCool(cfg, s, env, None, force);
            r.state.heaterOn && IsCoolerActive(cfg, r.state.coolerOn) && Issued(s, r.state) == [SwitchOn(Heater)]
  {
    HeatCoolRuns(cfg, s, env, None, force);
  }

  /** An open window stops both devices in a run without a keep-alive tick. */
  lemma HeatCoolOpenStopsBoth(cfg: Config, s: Thermo, env: Env, force: bool)
    requires HeatCoolPasses(cfg, s, env, None, force) && env.anyOpeningOpen
    ensures var r := ControlHeatCool(cfg, s, env, None, force);
            r.error.None? && !r.state.heaterOn && !IsCoolerActive(cfg, r.state.coolerOn)
  {
    HeatCoolRuns(cfg, s, env, None, force);
  }

  /** On a keep-alive tick the toggle runs again after the interlocks, with
      the verdict taken before them: a running heater in a room that is too
      cold is switched off for the open window and at once back on. */
  lemma KeepAliveReopensHeater(cfg: Config, s: Thermo, env: Env, time: nat, force: bool)
    requires HeatCoolPasses(cfg, s, env, Some(time), force) && env.anyOpeningOpen
    requires s.heaterOn && !IsCoolerActive(cfg, s.coolerOn)
    requires TooCold(s.curTemp.value, s.targetLow.value, cfg.coldTolerance)
    ensures var r := ControlHeatCool(cfg, s, env, Some(time), force);
            r.state.heaterOn && Issued(s, r.state) == [SwitchOff(Heater), SwitchOn(Heater)]
  {
    var s0 := HeatCoolActivate(cfg, s);
    var v := ColdOrHot(cfg, s0).value;
    var s1 := HeatCoolDecide(cfg, s0, env, v);
    var r := ControlHeatCool(cfg, s, env, Some(time), force);
    HeatCoolRuns(cfg, s, env, Some(time), force);
    IssuedSplit(s0, s1, r.state);
  }

  // ---------------------------------------------------------------------------
  // Presets and setpoints

  /** Saving the setpoints and later leaving the presets gives back the
      setpoints of the current mode. */
  lemma SaveThenRestore(s: Thermo)
    ensures var r := PresetsWhenNoPresetMode(SaveSetpoints(s));
            r.presetMode == PresetNone &&
            r.targetTemp == s.targetTemp && r.targetLow == s.targetLow && r.targetHigh == s.targetHigh
  {
  }

  /** Choosing a preset that has an entry for the current mode. */
  predicate HasEntry(cfg: Config, s: Thermo, name: string)
  {
    name != PresetNone && Lookup(cfg.presets, name).Some? &&
    (IsRangeMode(s.features) ==> Lookup(cfg.presetsRange, name).Some?)
  }

  /** Selecting a preset from "none" installs it; the controller run that
      follows changes no setpoint. */
  lemma SelectPreset(cfg: Config, s: Thermo, name: string, env: Env)
    requires HasEntry(cfg, s, name) && name != s.presetMode
    ensures var r := SetPresetMode(cfg, s, name, env);
            r.state.presetMode == name && r.state.features == s.features &&
            (s.presetMode == PresetNone ==>
              r.state.savedTarget == (if IsRangeMode(s.features) then s.savedTarget else s.targetTemp) &&
              (IsRangeMode(s.features) ==> r.state.savedLow == s.targetLow && r.state.savedHigh == s.targetHigh)) &&
            (s.presetMode != PresetNone ==>
              r.state.savedTarget == s.savedTarget && r.state.savedLow == s.savedLow && r.state.savedHigh == s.savedHigh)
  {
    var p := PresetsWhenHavePresetMode(cfg, s, name);
    assert p.error.None?;
  }

  /** Going from "none" through one preset, then another, back to "none"
      restores the setpoints of the current mode exactly. */
  lemma PresetRoundTrip(cfg: Config, s: Thermo, a: string, b: string, env: Env)
    requires s.presetMode == PresetNone
    requires HasEntry(cfg, s, a) && HasEntry(cfg, s, b)
    ensures var r1 := SetPresetMode(cfg, s, a, env);
            var r2 := SetPresetMode(cfg, r1.state, b, env);
            var r3 := SetPresetMode(cfg, r2.state, PresetNone, env);
            r3.state.presetMode == PresetNone &&
            (IsRangeMode(s.features) ==> r3.state.targetLow == s.targetLow && r3.state.targetHigh == s.targetHigh) &&
            (!IsRangeMode(s.features) ==> r3.state.targetTemp == s.targetTemp)
  {
    var r1 := SetPresetMode(cfg, s, a, env);
    SelectPreset(cfg, s, a, env);
    var r2 := SetPresetMode(cfg, r1.state, b, env);
    if b != a {
      SelectPreset(cfg, r1.state, b, env);
    }
    assert r2.state.presetMode == b && r2.state.features == s.features;
    assert IsPresetMode(cfg, PresetNone);
  }

  /** A new setpoint under an active preset keeps the preset and changes
      nothing but the setpoints, the switches and the log. */
  lemma SetTemperatureKeepsPreset(cfg: Config, s: Thermo, t: Option<real>, low: Option<real>,
                                  high: Option<real>, env: Env)
    ensures var r := SetTemperature(cfg, s, t, low, high, env);
            r.state.presetMode == s.presetMode && r.state.features == s.features &&
            r.state.savedTarget == s.savedTarget && r.state.savedLow == s.savedLow && r.state.savedHigh == s.savedHigh
  {
  }

  /** From "none", the flag switch keeps a state whose flags already match
      its configuration and mode. */
  lemma SwitchFlagsFixed(cfg: Config, s: Thermo)
    requires s.presetMode == PresetNone
    requires s.features == if ConfiguredForHeatCool(cfg, s.targetLow, s.targetHigh) &&
                              s.hvacMode != Some(Cool) && s.hvacMode != Some(Heat)
                           then RangeModeFeatures(cfg) else TargetModeFeatures(cfg)
    ensures SwitchFlags(cfg, s) == s
  {
  }

  /** Applying the feature flags twice from "none" changes nothing the second
      time. */
  lemma SupportFlagsIdempotent(cfg: Config, s: Thermo)
    requires s.presetMode == PresetNone
    ensures var r := SetSupportFlags(cfg, s);
            SetSupportFlags(cfg, r) == r
  {
    var r1 := SwitchFlags(cfg, s);
    var r := DefaultTargetTemps(cfg, r1);
    assert r1.presetMode == PresetNone && r1.targetLow == s.targetLow && r1.targetHigh == s.targetHigh;
    assert r.features == r1.features && r.hvacMode == s.hvacMode && r.presetMode == PresetNone;
    assert IsTargetMode(r.features) ==> r.targetLow == s.targetLow && r.targetHigh == s.targetHigh;
    SwitchFlagsFixed(cfg, r);
  }

  // ---------------------------------------------------------------------------
  // Mode changes

  /** Switching to Off leaves every configured device off, with nothing but
      switch-off commands. */
  lemma OffStopsEverything(cfg: Config, s: Thermo, env: Env)
    ensures var r := SetHvacMode(cfg, s, Off, env);
            r.error.None? && !r.state.heaterOn && !IsCoolerActive(cfg, r.state.coolerOn) &&
            (AuxHeatingConfigured(cfg) ==> !IsAuxHeat(cfg, r.state.auxOn)) &&
            s.log <= r.state.log && forall c :: c in r.state.log[|s.log|..] ==> c.SwitchOff?
  {
    var s1 := s.(hvacMode := Some(Off));
    var s2 := if IsDeviceActive(cfg, s1) then HeaterTurnOff(s1) else s1;
    var s3 := if cfg.hasCooler then CoolerTurnOff(cfg, s2) else s2;
    var r := if AuxHeatingConfigured(cfg) then AuxHeaterTurnOff(cfg, s3) else s3;
    assert SetHvacMode(cfg, s, Off, env) == Reply(r, None);
    assert !s2.heaterOn;
    assert forall c :: c in Issued(s1, s2) ==> c.SwitchOff?;
    assert forall c :: c in Issued(s2, s3) ==> c.SwitchOff?;
    assert forall c :: c in Issued(s3, r) ==> c.SwitchOff?;
    IssuedSplit(s2, s3, r);
    IssuedSplit(s1, s2, r);
    assert r.log[|s.log|..] == Issued(s1, r);
  }

  /** Switching to Cool, with a cooler or a plain heater, leaves the heater
      and a configured aux heater off. */
  lemma CoolStopsHeater(cfg: Config, s: Thermo, env: Env)
    requires !cfg.acMode
    ensures var r := SetHvacMode(cfg, s, Cool, env);
            r.error.None? ==> !r.state.heaterOn && (AuxHeatingConfigured(cfg) ==> !IsAuxHeat(cfg, r.state.auxOn))
  {
  }

  /** Switching to Heat leaves the cooler off. */
  lemma HeatStopsCooler(cfg: Config, s: Thermo, env: Env)
    ensures var r := SetHvacMode(cfg, s, Heat, env);
            r.error.None? ==> !IsCoolerActive(cfg, r.state.coolerOn)
  {
  }

  // ---------------------------------------------------------------------------
  // Sensor-driven scenarios

  /** A heater with its thermostat and nothing else: tolerances of half a
      degree, no minimum cycle, an optional floor sensor with its limits. */
  function HeaterOnly(floor: bool, minFloor: Option<real>, maxFloor: Option<real>): Config
  {
    Config(hasAuxHeater := false, auxTimeoutSet := false, auxDualMode := false, hasCooler := false,
           hasFloorSensor := floor, minTemp := None, maxTemp := None,
           maxFloorTemp := maxFloor, minFloorTemp := minFloor, acMode := false, heatCoolMode := false,
           minCycleSeconds := None, coldTolerance := 0.5, hotTolerance := 0.5,
           presets := [], presetsRange := [])
  }

  /** In Heat mode at a target, nothing measured yet, every switch off. */
  function HeatingAt(target: real): Thermo
  {
    Thermo(curTemp := None, curFloorTemp := None, targetTemp := Some(target),
           targetLow := None, targetHigh := None, savedTarget := Some(target),
           savedLow := None, savedHigh := None, presetMode := PresetNone, active := false,
           hvacMode := Some(Heat),
           features := Features(true, false, false, false, true),
           heaterOn := false, auxOn := false, coolerOn := false, auxLastRun := None, log := [])
  }

  /** Closed windows, nothing timed out, no minimum cycle in force. */
  function Quiet(): Env
  {
    Env(anyOpeningOpen := false, heaterRanLongEnough := false, coolerRanLongEnough := false,
        firstStageTimedOut := false, today := 0)
  }

  /** The heating state after `HeatingAt(target)` has been activated by a
      reading. */
  function Heating(target: real, cur: real, floor: Option<real>, on: bool, log: seq<Command>): Thermo
  {
    HeatingAt(target).(active := true, curTemp := Some(cur), curFloorTemp := floor, heaterOn := on, log := log)
  }

  /** Whether a lone heater runs after a sensor-driven step: a running one
      stops when the room is too hot or the floor too hot, unless the floor is
      too cold; an idle one starts when the room is too cold and the floor not
      too hot, or when the floor is too cold. */
  function HeaterOnlyNext(cfg: Config, target: real, cur: real, floor: Option<real>, on: bool): bool
  {
    var floorHot := IsFloorHot(cfg, floor);
    var floorCold := IsFloorCold(cfg, floor);
    if on then !((TooHot(cur, target, cfg.hotTolerance) || floorHot) && !floorCold)
    else (TooCold(cur, target, cfg.coldTolerance) && !floorHot) || floorCold
  }

  /** The decision table of a lone heater in Heat mode with the windows
      closed: the heater ends in the state `HeaterOnlyNext` gives, with one
      command exactly when that state differs from the old one. */
  lemma HeaterOnlyDecision(cfg: Config, target: real, cur: real, floor: Option<real>, on: bool, log: seq<Command>)
    requires cfg == HeaterOnly(cfg.hasFloorSensor, cfg.minFloorTemp, cfg.maxFloorTemp)
    ensures var on' := HeaterOnlyNext(cfg, target, cur, floor, on);
            ControlHeating(cfg, Heating(target, cur, floor, on, log), Quiet(), None, false) ==
            Reply(Heating(target, cur, floor, on', log + if on' == on then [] else [if on' then SwitchOn(Heater) else SwitchOff(Heater)]), None)
  {
    HeatingRuns(cfg, Heating(target, cur, floor, on, log), Quiet(), None, false);
  }

  lemma RoomReading(cfg: Config, target: real, cur: real, floor: Option<real>, on: bool, log: seq<Command>, v: real)
    requires cfg == HeaterOnly(cfg.hasFloorSensor, cfg.minFloorTemp, cfg.maxFloorTemp)
    ensures var on' := HeaterOnlyNext(cfg, target, v, floor, on);
            SensorChanged(cfg, Heating(target, cur, floor, on, log), Finite(v), Quiet()) ==
            Reply(Heating(target, v, floor, on', log + if on' == on then [] else [if on' then SwitchOn(Heater) else SwitchOff(Heater)]), None)
  {
    assert Heating(target, cur, floor, on, log).(curTemp := Some(v)) == Heating(target, v, floor, on, log);
    HeaterOnlyDecision(cfg, target, v, floor, on, log);
  }

  lemma FloorReading(cfg: Config, target: real, cur: real, floor: Option<real>, on: bool, log: seq<Command>, v: real)
    requires cfg == HeaterOnly(cfg.hasFloorSensor, cfg.minFloorTemp, cfg.maxFloorTemp)
    ensures var on' := HeaterOnlyNext(cfg, target, cur, Some(v), on);
            FloorSensorChanged(cfg, Heating(target, cur, floor, on, log), Finite(v), Quiet()) ==
            Reply(Heating(target, cur, Some(v), on', log + if on' == on then [] else [if on' then SwitchOn(Heater) else SwitchOff(Heater)]), None)
  {
    assert Heating(target, cur, floor, on, log).(curFloorTemp := Some(v)) == Heating(target, cur, Some(v), on, log);
    HeaterOnlyDecision(cfg, target, cur, Some(v), on, log);
  }

  /** The first reading activates a lone heater and applies the decision
      table to it. */
  lemma FirstReading(cfg: Config, target: real, v: real)
    requires cfg == HeaterOnly(cfg.hasFloorSensor, cfg.minFloorTemp, cfg.maxFloorTemp)
    ensures var on' := HeaterOnlyNext(cfg, target, v, None, false);
            SensorChanged(cfg, HeatingAt(target), Finite(v), Quiet()) ==
            Reply(Heating(target, v, None, on', if on' then [SwitchOn(Heater)] else []), None)
  {
    var s1 := HeatingAt(target).(curTemp := Some(v));
    assert SetSelfActive(s1) == Heating(target, v, None, false, []);
    HeatingRuns(cfg, s1, Quiet(), None, false);
  }

  /** Target 19 without a floor sensor, one reading after the other: the
      heater stays off at 18.6, starts at 18.5, keeps running at 19 and 19.4
      and stops at 19.5. */
  lemma HeaterFollowsSensor()
    ensures var cfg := HeaterOnly(false, None, None);
            !HeaterOnlyNext(cfg, 19.0, 18.6, None, false) &&
            HeaterOnlyNext(cfg, 19.0, 18.5, None, false) &&
            HeaterOnlyNext(cfg, 19.0, 19.0, None, true) &&
            HeaterOnlyNext(cfg, 19.0, 19.4, None, true) &&
            !HeaterOnlyNext(cfg, 19.0, 19.5, None, true)
  {
  }

  /** Target 18 with floor limits 5 and 28, one reading after the other: the
      heater starts at 17 in the room, stops when the floor reaches 28, starts
      again at 26, stops when the room reaches 22, starts when the floor drops
      to 4 and keeps running at 3, and stops when the floor is back at 10. */
  lemma FloorLimitsScenario()
    ensures var cfg := HeaterOnly(true, Some(5.0), Some(28.0));
            HeaterOnlyNext(cfg, 18.0, 17.0, None, false) &&
            !HeaterOnlyNext(cfg, 18.0, 17.0, Some(28.0), true) &&
            HeaterOnlyNext(cfg, 18.0, 17.0, Some(26.0), false) &&
            !HeaterOnlyNext(cfg, 18.0, 22.0, Some(26.0), true) &&
            HeaterOnlyNext(cfg, 18.0, 22.0, Some(4.0), false) &&
            HeaterOnlyNext(cfg, 18.0, 22.0, Some(3.0), true) &&
            !HeaterOnlyNext(cfg, 18.0, 22.0, Some(10.0), true)
  {
  }

  // ---------------------------------------------------------------------------
  // Defects of the source and their corrections

  /** As written, the heater hands over to the aux heater on the first
      control step after it started, long before the aux timeout: the
      timeout check is never called. */
  lemma AuxStagingIgnoresTimeoutAsWritten(cfg: Config, s: Thermo, env: Env, time: Option<nat>)
    requires AuxHeatingConfigured(cfg) && !cfg.auxDualMode && !env.firstStageTimedOut
    requires s.heaterOn && !IsAuxHeat(cfg, s.auxOn)
    requires !IsFloorHot(cfg, s.curFloorTemp) && !env.anyOpeningOpen
    ensures var r := HeaterWhenOnAsWritten(cfg, s, env, false, time);
            !r.heaterOn && IsAuxHeat(cfg, r.auxOn) && Issued(s, r) == [SwitchOff(Heater), SwitchOn(AuxHeater)]
    ensures var r := HeaterWhenOn(cfg, s, env, false, time);
            r.heaterOn && !IsAuxHeat(cfg, r.auxOn)
  {
    var r := HeaterWhenOnAsWritten(cfg, s, env, false, time);
    IssuedSplit(s, HeaterTurnOff(s), r);
  }

  /** As written, switching an air conditioner driven through the heater
      entity to Cool in a hot room starts it and stops it again at once. */
  lemma AcModeEntryStopsAcAsWritten(cfg: Config, s: Thermo, env: Env)
    requires cfg.acMode && !cfg.hasCooler && !AuxHeatingConfigured(cfg)
    requires CoolingPasses(cfg, s.(hvacMode := Some(Cool)), env, None, true) && !env.anyOpeningOpen
    requires !s.heaterOn && TooHot(s.curTemp.value, s.targetTemp.value, cfg.hotTolerance)
    ensures var r := EnterCoolAsWritten(cfg, s, env);
            !r.state.heaterOn && r.state.log == s.log + [SwitchOn(Heater), SwitchOff(Heater)]
  {
    CoolingRuns(cfg, s.(hvacMode := Some(Cool)), env, None, true);
  }

  /** Corrected: in AC mode the entry to Cool keeps the cooling decision, so
      the air conditioner runs in a hot room with the windows closed. */
  lemma AcModeEntryKeepsAc(cfg: Config, s: Thermo, env: Env)
    requires cfg.acMode && !cfg.hasCooler && cfg.coldTolerance + cfg.hotTolerance > 0.0
    requires CoolingPasses(cfg, s.(hvacMode := Some(Cool)), env, None, true) && !env.anyOpeningOpen
    requires TooHot(s.curTemp.value, s.targetTemp.value, cfg.hotTolerance)
    ensures var r := EnterCool(cfg, s, env);
            r.error.None? && r.state.heaterOn &&
            r.state.log == s.log + (if s.heaterOn then [] else [SwitchOn(Heater)])
  {
    CoolingRuns(cfg, s.(hvacMode := Some(Cool)), env, None, true);
    ToleranceBandsExclusive(cfg, s.curTemp.value, s.targetTemp.value);
  }

  /** As written, selecting Cool again while an air conditioner driven through
      the heater entity is running in a room that is not too cold switches it
      off: the only command is the heater entity's switch-off. This holds
      however soon a command takes effect, since the air conditioner was
      already running before the request. */
  lemma AcModeReselectStopsAcAsWritten(cfg: Config, s: Thermo, env: Env)
    requires cfg.acMode && !cfg.hasCooler && !IsAuxHeat(cfg, s.auxOn)
    requires CoolingPasses(cfg, s.(hvacMode := Some(Cool)), env, None, true) && !env.anyOpeningOpen
    requires s.heaterOn && !TooCold(s.curTemp.value, s.targetTemp.value, cfg.coldTolerance)
    ensures var r := EnterCoolAsWritten(cfg, s, env);
            r.error.None? && !r.state.heaterOn && r.state.log == s.log + [SwitchOff(Heater)]
  {
    CoolingRuns(cfg, s.(hvacMode := Some(Cool)), env, None, true);
  }

  /** Corrected: selecting Cool again leaves the running air conditioner on
      and issues nothing. */
  lemma AcModeReselectKeepsAc(cfg: Config, s: Thermo, env: Env)
    requires cfg.acMode && !cfg.hasCooler
    requires CoolingPasses(cfg, s.(hvacMode := Some(Cool)), env, None, true) && !env.anyOpeningOpen
    requires s.heaterOn && !TooCold(s.curTemp.value, s.targetTemp.value, cfg.coldTolerance)
    ensures var r := EnterCool(cfg, s, env);
            r.error.None? && r.state.heaterOn && r.state.log == s.log
  {
    CoolingRuns(cfg, s.(hvacMode := Some(Cool)), env, None, true);
  }
}
