# Dual smart thermostat: a verified model of its decision engine

This project models the decision engine of the `DualSmartThermostat` climate entity,
a Home Assistant custom component. The entity drives up to three on/off switches:
- a heater, which acts as the air conditioner in AC mode;
- an optional auxiliary (second-stage) heater;
- an optional cooler.

It decides from:
- the room and floor temperatures;
- the target temperature, or a target range in heat-cool mode;
- the cold and hot tolerances;
- the floor limits;
- open windows and doors;
- the minimum cycle duration;
- the aux-heater timeout.

The model has four modules:

- `Types`: the values involved:
  - the climate modes;
  - the switches and the commands (service calls) issued to them;
  - the fixed configuration (`Config`);
  - the host facts read during one step (`Env`);
  - a snapshot `Thermo` of every field the entity updates in place, including a log of the commands issued.
- `Engine`: each operation of the engine as a function of a snapshot. This covers:
  - the tolerance, floor and cycle predicates;
  - the guarded switch helpers;
  - the heating, cooling and heat-cool controllers and their dispatcher;
  - the sensor, opening and mode triggers;
  - setpoints, presets, default temperatures, feature flags and construction.
- `Thermostat`: the class `DualSmartThermostat`. Its fields mirror the entity's and its methods update them in place, step by step as the source does. Each method is proved to leave the object in the state, and to raise the error, that the `Engine` function of the same name gives.
- `Properties`: lemmas that state what the engine promises. Among them:
  - tolerance bands;
  - the control gate and the activation latch;
  - the floor and window interlocks of every controller;
  - heat-cool exclusivity;
  - idempotence of the heating and cooling controllers;
  - the preset round trip;
  - the two defects listed under Findings, each with its correction.

How each part of the source is represented:
- **Temperatures** are `real`.
- **Service calls** are appended to `log`, and each takes effect immediately, so the switch state that the next guard reads is the one just commanded.
- **Host facts** are fields of `Env`. A switch that has "run long enough" and a first stage that has "timed out" are lookups of entity history in the source; here they are booleans. "Today" is a day number.
- **Deferred callbacks** become ordinary later calls: the opening timeout and the aux-heater timeout (`ControlClimateForced`, `ControlHeatingForced`).
- **Errors.** A controller that compares an unknown temperature raises `MissingTemperature`. The source raises a `TypeError` there, before any switch is touched.

## Model

| member | source | states |
|---|---|---|
| `Engine.LookupFindsFirst` | custom_components/dual_smart_thermostat/climate.py:1280-1293 | Preset lookup finds nothing exactly when no entry has the name; otherwise it returns the value of the first entry with that name. |
| `Properties.ToleranceBandsExclusive` | custom_components/dual_smart_thermostat/climate.py:1336-1345 | "Too cold" is `target >= cur + cold_tolerance` and "too hot" is `cur >= target + hot_tolerance`; with a positive dead band the two never hold together. |
| `Properties.ToleranceBoundaries` | tests/test_heater_mode.py:1259-1281 | With target 19 and tolerances of 0.5: too cold at 18.5 and not at 18.6; too hot at 19.5 and not at 19.4. |
| `Engine.ColdOrHot` | custom_components/dual_smart_thermostat/climate.py:1347-1360 | The heat-cool verdict compares against the low bound when the heater runs, and against the high bound when only the cooler runs. With neither running, "too cold" uses the low bound and "too hot" the high one. It is absent exactly when a compared temperature is unknown. With a dead band and an ordered range, it is never both too cold and too hot. |
| `Engine.NeedsCycle` | custom_components/dual_smart_thermostat/climate.py:1325-1334 | The cycle guard reads the heater's history, or the cooler's for the cooling controller. In heat-cool mode with a cooler it passes when either switch ran long enough. |
| `Engine.NeedsControl` | custom_components/dual_smart_thermostat/climate.py:1310-1323 | The gate is shut when inactive or in mode Off. A forced call, a keep-alive tick or an unset or zero minimum cycle skips the cycle guard; otherwise the guard decides. |
| `Engine.HasAuxHeatingRanToday` | custom_components/dual_smart_thermostat/climate.py:1519-1540 | True exactly when aux heating is configured (entity and timeout) and its last run is today. |
| `Engine.HeaterTurnOn` | custom_components/dual_smart_thermostat/climate.py:1199-1202 | Leaves the heater on. It issues `SwitchOn(Heater)` exactly when the heater was off, and changes nothing else. |
| `Engine.HeaterTurnOff` | custom_components/dual_smart_thermostat/climate.py:1204-1207 | Leaves the heater off. It issues `SwitchOff(Heater)` exactly when the heater was on, and changes nothing else. |
| `Engine.AuxHeaterTurnOn` | custom_components/dual_smart_thermostat/climate.py:1209-1213 | Leaves a configured aux heater on. It issues one command exactly when the aux heater was configured and off, and records today as the last run exactly then. |
| `Engine.AuxHeaterTurnOff` | custom_components/dual_smart_thermostat/climate.py:1223-1226 | Leaves the aux heater off. It issues one command exactly when it was on. |
| `Engine.CoolerTurnOn` | custom_components/dual_smart_thermostat/climate.py:1228-1231 | Leaves a configured cooler on. It issues one command exactly when the cooler was configured and off. |
| `Engine.CoolerTurnOff` | custom_components/dual_smart_thermostat/climate.py:1233-1236 | Leaves the cooler off. It issues one command exactly when it was on. |
| `Engine.SetSelfActive` | custom_components/dual_smart_thermostat/climate.py:1295-1308 | The latch is set afterwards exactly when it was set before, or both temperatures are known and the mode is not Off. It changes nothing else. |
| `Engine.HeaterWhenOn` | custom_components/dual_smart_thermostat/climate.py:942-974 | For a running heating stage: a hot room, a hot floor or an open window stops both stages unless the floor is too cold, and a cold floor keeps a stage on. Otherwise, once the hand-over is due, the aux heater is on afterwards, its run is recorded today, and the heater stays on only in dual mode. A newly started aux heater implies the first-stage timeout (corrected guard, see Findings). Commands are only appended; the cooler and the latch are unchanged. |
| `Engine.StagesAux` | custom_components/dual_smart_thermostat/climate.py:955-959 | The hand-over is due exactly when the aux heater and its timeout are configured, the first stage has timed out, and the aux heater is off (corrected guard, see Findings). |
| `Engine.HeaterWhenOnAsWritten` | custom_components/dual_smart_thermostat/climate.py:942-974 | `HeaterWhenOn` with the as-written staging guard. It only appends commands, and leaves the cooler and the latch unchanged. |
| `Engine.HeaterWhenOff` | custom_components/dual_smart_thermostat/climate.py:976-1014 | For idle heating: a stage starts when the room is too cold with closed windows and a floor that is not hot, or whenever the floor is too cold. Then an aux heater that already ran today starts, with the heater only in dual mode; otherwise the heater starts and the aux heater is untouched. Without a reason to start, a keep-alive tick, an open window or a hot floor keeps the heater off, and without any of them nothing changes. |
| `Engine.ControlHeating` | custom_components/dual_smart_thermostat/climate.py:921-940 | The heating run keeps every setting and only appends commands. The latch never clears. Any command implies an active entity not in mode Off. |
| `Engine.ControlledOn` | custom_components/dual_smart_thermostat/climate.py:1028-1042 | Leaves the controlled device on: the cooler when configured, else the heater entity. |
| `Engine.ControlledOff` | custom_components/dual_smart_thermostat/climate.py:1028-1042 | Leaves the controlled device off. |
| `Engine.ControlCooling` | custom_components/dual_smart_thermostat/climate.py:1016-1070 | The cooling run keeps every setting and only appends commands. The latch never clears. Any command implies an active entity not in mode Off. |
| `Engine.CoolingDecide` | custom_components/dual_smart_thermostat/climate.py:1050-1070 | An open window leaves the controlled device off. A running device stops when too cold, and an idle one starts when too hot with closed windows. Inside the dead band with closed windows the device keeps its state. |
| `Engine.HeaterToggle` | custom_components/dual_smart_thermostat/climate.py:1122-1127 | The heater ends on when too cold, off when too hot, and unchanged otherwise. The cooler is untouched. |
| `Engine.CoolerToggle` | custom_components/dual_smart_thermostat/climate.py:1129-1134 | The cooler ends off when too cold and on when too hot; inside the band nothing changes. The heater is untouched. |
| `Engine.AutoToggle` | custom_components/dual_smart_thermostat/climate.py:1136-1147 | With neither device running: too cold with closed windows leaves the heater on and the cooler off; too hot with closed windows leaves the cooler on and the heater off; inside the band both end off. Never both on, and an open window switches nothing on. |
| `Engine.HeaterCoolerToggle` | custom_components/dual_smart_thermostat/climate.py:1110-1120 | Keeps the settings and only appends commands. |
| `Engine.HeatCoolActivate` | custom_components/dual_smart_thermostat/climate.py:1076-1081 | The heat-cool latch is set exactly when it was set or heat-cool is configured and the room temperature is known. It changes nothing else. |
| `Engine.HeatCoolDecide` | custom_components/dual_smart_thermostat/climate.py:1087-1097 | An open window leaves both devices off. Otherwise a hot floor stops the heater, and a cold floor starts it, with the cooler untouched. |
| `Engine.ControlHeatCool` | custom_components/dual_smart_thermostat/climate.py:1072-1108 | The heat-cool run keeps every setting and only appends commands. The latch never clears. Any command implies an active entity not in mode Off. |
| `Engine.ControlClimate` | custom_components/dual_smart_thermostat/climate.py:854-862 | Every dispatched run keeps the settings, only appends commands and never clears the latch. No command is issued in mode Off. |
| `Engine.SensorChanged` | custom_components/dual_smart_thermostat/climate.py:780-791 | A missing or unavailable state does nothing. A finite reading becomes the room temperature. Any other reading keeps the old value. |
| `Engine.FloorSensorChanged` | custom_components/dual_smart_thermostat/climate.py:793-804 | The same for the floor temperature. |
| `Engine.OpeningChanged` | custom_components/dual_smart_thermostat/climate.py:816-851 | A report with no state (missing, unavailable, unknown) does nothing. An opening that opens and has a timeout defers the run and changes nothing now. Any other report runs the dispatcher at once, forced. |
| `Engine.CoolEntryShutoffAsWritten` | custom_components/dual_smart_thermostat/climate.py:706-712 | As written: the heater, and a configured aux heater, end off; the cooler is untouched. With no device running nothing changes. |
| `Engine.CoolEntryShutoff` | custom_components/dual_smart_thermostat/climate.py:706-712 | Corrected: in AC mode the device that cools is never switched off. Otherwise the heater and a configured aux heater end off, and the cooler is untouched. |
| `Engine.SetHvacMode` | custom_components/dual_smart_thermostat/climate.py:696-731 | Off, Heat, Cool and HeatCool become the mode. Any other mode changes nothing. Off leaves the heater and a configured cooler off. |
| `Engine.EnterHeat` | custom_components/dual_smart_thermostat/climate.py:700-704 | The mode becomes Heat. |
| `Engine.EnterCool` | custom_components/dual_smart_thermostat/climate.py:706-712 | The mode becomes Cool. Outside AC mode a successful entry leaves the heater and a configured aux heater off (corrected shut-off). |
| `Engine.EnterCoolAsWritten` | custom_components/dual_smart_thermostat/climate.py:706-712 | The mode becomes Cool (as-written shut-off). |
| `Engine.EnterOff` | custom_components/dual_smart_thermostat/climate.py:718-725 | The mode becomes Off, the heater is off and a configured cooler is off. |
| `Engine.SetTemperature` | custom_components/dual_smart_thermostat/climate.py:733-760 | Target mode installs the single target, and range mode installs both bounds and the single value. A request lacking them changes nothing. The preset mode is kept. |
| `Engine.NewSetpoints` | custom_components/dual_smart_thermostat/climate.py:743-756 | Only the setpoints differ from the old state. |
| `Engine.PresetsWhenNoPresetMode` | custom_components/dual_smart_thermostat/climate.py:1270-1278 | Leaving the presets restores the saved range in range mode, and the saved target otherwise. The other setpoints are kept and the preset mode becomes "none". |
| `Engine.PresetsWhenHavePresetMode` | custom_components/dual_smart_thermostat/climate.py:1280-1293 | The setpoints of the current mode are saved only when coming from "none". On success the preset's entry becomes the setpoint(s) and the preset mode its name. A missing entry keeps the preset mode. |
| `Engine.ApplyPreset` | custom_components/dual_smart_thermostat/climate.py:1280-1293 | A missing entry leaves the state unchanged. |
| `Engine.SaveSetpoints` | custom_components/dual_smart_thermostat/climate.py:1282-1291 | The current range or target is copied into its saved counterpart, and the other saved values are kept. |
| `Engine.SetPresetMode` | custom_components/dual_smart_thermostat/climate.py:1252-1268 | An unknown name raises `UnsupportedPreset` and changes nothing. The already-active preset is a no-op. |
| `Engine.DefaultTempsTargetMode` | custom_components/dual_smart_thermostat/climate.py:1393-1417 | A missing target is filled, when cooling, from the high bound or else the maximum; otherwise from the low bound or else the minimum. A present target is kept. |
| `Engine.DefaultTempsRangeMode` | custom_components/dual_smart_thermostat/climate.py:1419-1441 | Existing bounds are kept. Without a target the range is minimum to maximum. From a target, the range is one degree wide and holds the target as its low bound, or as its high bound exactly when target + 1 reaches the maximum. |
| `Engine.SetSupportFlags` | custom_components/dual_smart_thermostat/climate.py:1443-1480 | Exactly one of target mode and range mode. Range mode holds exactly when heat-cool is configured and the mode is neither Cool nor Heat. The setpoints that mode needs are filled. The preset flag follows the presets of that mode, and the aux-heat flag is set exactly in target mode with aux heating configured. Leaving range mode with an active preset resets the preset to "none" and restores the saved range; leaving target mode likewise restores the saved target. |
| `Engine.SwitchFlags` | custom_components/dual_smart_thermostat/climate.py:1446-1479 | The flag switch before the defaults: the kind rule, the preset and aux-heat flags, and the preset reset with its restored setpoints as for `SetSupportFlags`. Without a reset only the flags change. |
| `Engine.Normalised` | custom_components/dual_smart_thermostat/climate.py:360-362 | With a cooler, AC mode is off; nothing else changes. |
| `Engine.HvacModes` | custom_components/dual_smart_thermostat/climate.py:361-374 | With a cooler: Off, Heat and Cool, plus HeatCool exactly when heat-cool is configured. Without one: Cool and Off in AC mode, else Heat and Off. |
| `Engine.InitialSavedTarget` | custom_components/dual_smart_thermostat/climate.py:351 | The configured target when it is not zero, else the first preset's target, else none. |
| `Engine.InitialMode` | custom_components/dual_smart_thermostat/climate.py:373-376 | The requested mode is kept exactly when it is offered. |
| `Engine.Initial` | custom_components/dual_smart_thermostat/climate.py:302-409 | Inactive, nothing measured, preset "none", all switches off, empty log. |
| `Thermostat.DualSmartThermostat.constructor` | custom_components/dual_smart_thermostat/climate.py:302-409 | The new object holds `Engine.Initial` under the normalised configuration. |
| `Thermostat.DualSmartThermostat.SwitchesChanged` | custom_components/dual_smart_thermostat/climate.py:876-893 | The switches take the states the host reports; nothing else changes. |
| `Thermostat.DualSmartThermostat.HeaterTurnOn` | custom_components/dual_smart_thermostat/climate.py:1199-1202 | Updates the fields in place as `Engine.HeaterTurnOn`. |
| `Thermostat.DualSmartThermostat.HeaterTurnOff` | custom_components/dual_smart_thermostat/climate.py:1204-1207 | In place as `Engine.HeaterTurnOff`. |
| `Thermostat.DualSmartThermostat.AuxHeaterTurnOn` | custom_components/dual_smart_thermostat/climate.py:1209-1213 | In place as `Engine.AuxHeaterTurnOn`. |
| `Thermostat.DualSmartThermostat.AuxHeaterTurnOff` | custom_components/dual_smart_thermostat/climate.py:1223-1226 | In place as `Engine.AuxHeaterTurnOff`. |
| `Thermostat.DualSmartThermostat.CoolerTurnOn` | custom_components/dual_smart_thermostat/climate.py:1228-1231 | In place as `Engine.CoolerTurnOn`. |
| `Thermostat.DualSmartThermostat.CoolerTurnOff` | custom_components/dual_smart_thermostat/climate.py:1233-1236 | In place as `Engine.CoolerTurnOff`. |
| `Thermostat.DualSmartThermostat.TurnAuxHeatOn` | custom_components/dual_smart_thermostat/climate.py:1215-1217 | The user's aux-heat switch behaves as `Engine.AuxHeaterTurnOn`. |
| `Thermostat.DualSmartThermostat.TurnAuxHeatOff` | custom_components/dual_smart_thermostat/climate.py:1219-1221 | The user's aux-heat switch behaves as `Engine.AuxHeaterTurnOff`. |
| `Thermostat.DualSmartThermostat.SetSelfActive` | custom_components/dual_smart_thermostat/climate.py:1295-1308 | In place as `Engine.SetSelfActive`. |
| `Thermostat.DualSmartThermostat.ControlHeating` | custom_components/dual_smart_thermostat/climate.py:921-940 | New fields and raised error are those of `Engine.ControlHeating`. |
| `Thermostat.DualSmartThermostat.HeaterWhenOn` | custom_components/dual_smart_thermostat/climate.py:942-974 | In place as `Engine.HeaterWhenOn`. |
| `Thermostat.DualSmartThermostat.HeaterWhenOff` | custom_components/dual_smart_thermostat/climate.py:976-1014 | In place as `Engine.HeaterWhenOff`. |
| `Thermostat.DualSmartThermostat.ControlHeatingForced` | custom_components/dual_smart_thermostat/climate.py:916-919 | The aux timeout callback is a forced heating run with the callback's time. |
| `Thermostat.DualSmartThermostat.ControlledOn` | custom_components/dual_smart_thermostat/climate.py:1040-1042 | In place as `Engine.ControlledOn`. |
| `Thermostat.DualSmartThermostat.ControlledOff` | custom_components/dual_smart_thermostat/climate.py:1035-1039 | In place as `Engine.ControlledOff`. |
| `Thermostat.DualSmartThermostat.ControlCooling` | custom_components/dual_smart_thermostat/climate.py:1016-1070 | New fields and raised error are those of `Engine.ControlCooling`. |
| `Thermostat.DualSmartThermostat.CoolingDecide` | custom_components/dual_smart_thermostat/climate.py:1050-1070 | In place as `Engine.CoolingDecide`. |
| `Thermostat.DualSmartThermostat.HeaterToggle` | custom_components/dual_smart_thermostat/climate.py:1122-1127 | In place as `Engine.HeaterToggle`. |
| `Thermostat.DualSmartThermostat.CoolerToggle` | custom_components/dual_smart_thermostat/climate.py:1129-1134 | In place as `Engine.CoolerToggle`. |
| `Thermostat.DualSmartThermostat.AutoToggle` | custom_components/dual_smart_thermostat/climate.py:1136-1147 | In place as `Engine.AutoToggle`. |
| `Thermostat.DualSmartThermostat.HeaterCoolerToggle` | custom_components/dual_smart_thermostat/climate.py:1110-1120 | In place as `Engine.HeaterCoolerToggle`. |
| `Thermostat.DualSmartThermostat.ControlHeatCool` | custom_components/dual_smart_thermostat/climate.py:1072-1108 | New fields and raised error are those of `Engine.ControlHeatCool`. |
| `Thermostat.DualSmartThermostat.HeatCoolDecide` | custom_components/dual_smart_thermostat/climate.py:1087-1097 | In place as `Engine.HeatCoolDecide`. |
| `Thermostat.DualSmartThermostat.ControlClimate` | custom_components/dual_smart_thermostat/climate.py:854-862 | New fields and raised error are those of `Engine.ControlClimate`. |
| `Thermostat.DualSmartThermostat.ControlClimateForced` | custom_components/dual_smart_thermostat/climate.py:864-866 | The opening timeout callback is a forced run with the callback's time. |
| `Thermostat.DualSmartThermostat.SensorChanged` | custom_components/dual_smart_thermostat/climate.py:780-791 | In place as `Engine.SensorChanged`. |
| `Thermostat.DualSmartThermostat.FloorSensorChanged` | custom_components/dual_smart_thermostat/climate.py:793-804 | In place as `Engine.FloorSensorChanged`. |
| `Thermostat.DualSmartThermostat.OpeningChanged` | custom_components/dual_smart_thermostat/climate.py:816-851 | In place as `Engine.OpeningChanged`. |
| `Thermostat.DualSmartThermostat.CoolEntryShutoff` | custom_components/dual_smart_thermostat/climate.py:706-712 | In place as `Engine.CoolEntryShutoff`. |
| `Thermostat.DualSmartThermostat.SetHvacMode` | custom_components/dual_smart_thermostat/climate.py:696-731 | New fields and raised error are those of `Engine.SetHvacMode`. |
| `Thermostat.DualSmartThermostat.EnterHeat` | custom_components/dual_smart_thermostat/climate.py:700-704 | In place as `Engine.EnterHeat`. |
| `Thermostat.DualSmartThermostat.EnterCool` | custom_components/dual_smart_thermostat/climate.py:706-712 | In place as `Engine.EnterCool`. |
| `Thermostat.DualSmartThermostat.EnterOff` | custom_components/dual_smart_thermostat/climate.py:718-725 | In place as `Engine.EnterOff`. |
| `Thermostat.DualSmartThermostat.SetTemperature` | custom_components/dual_smart_thermostat/climate.py:733-760 | New fields and raised error are those of `Engine.SetTemperature`. |
| `Thermostat.DualSmartThermostat.ApplySetpoints` | custom_components/dual_smart_thermostat/climate.py:743-756 | Reports whether the request carried the values the mode needs. If it did, the fields are `Engine.NewSetpoints`; if not, they are unchanged. |
| `Thermostat.DualSmartThermostat.PresetsWhenNoPresetMode` | custom_components/dual_smart_thermostat/climate.py:1270-1278 | In place as `Engine.PresetsWhenNoPresetMode`. |
| `Thermostat.DualSmartThermostat.PresetsWhenHavePresetMode` | custom_components/dual_smart_thermostat/climate.py:1280-1293 | In place as `Engine.PresetsWhenHavePresetMode`. |
| `Thermostat.DualSmartThermostat.ApplyPreset` | custom_components/dual_smart_thermostat/climate.py:1280-1293 | In place as `Engine.ApplyPreset`. |
| `Thermostat.DualSmartThermostat.SaveSetpoints` | custom_components/dual_smart_thermostat/climate.py:1282-1291 | In place as `Engine.SaveSetpoints`. |
| `Thermostat.DualSmartThermostat.SetPresetMode` | custom_components/dual_smart_thermostat/climate.py:1252-1268 | New fields and raised error are those of `Engine.SetPresetMode`. |
| `Thermostat.DualSmartThermostat.SetDefaultTempsTargetMode` | custom_components/dual_smart_thermostat/climate.py:1393-1417 | In place as `Engine.DefaultTempsTargetMode`. |
| `Thermostat.DualSmartThermostat.SetDefaultTempsRangeMode` | custom_components/dual_smart_thermostat/climate.py:1419-1441 | In place as `Engine.DefaultTempsRangeMode`. The range is built step by step, as the source does: both bounds at the target, then one moved by a degree. |
| `Thermostat.DualSmartThermostat.SetDefaultTargetTemps` | custom_components/dual_smart_thermostat/climate.py:1385-1391 | In place as `Engine.DefaultTargetTemps`. |
| `Thermostat.DualSmartThermostat.SetSupportFlags` | custom_components/dual_smart_thermostat/climate.py:1443-1480 | In place as `Engine.SetSupportFlags`. |
| `Thermostat.DualSmartThermostat.SwitchFlags` | custom_components/dual_smart_thermostat/climate.py:1446-1479 | In place as `Engine.SwitchFlags`. |
| `Properties.NoCommandInModeOff` | custom_components/dual_smart_thermostat/climate.py:1310-1314 | In mode Off no controller issues a command. |
| `Properties.ActivationOnlyWhenKnown` | custom_components/dual_smart_thermostat/climate.py:1076-1081 | The latch never clears. It is set only when current and target temperature are known and the mode is not Off. For heat-cool, it is set when the room temperature is known and heat-cool is configured. |
| `Properties.InactiveIsQuiet` | custom_components/dual_smart_thermostat/climate.py:1295-1314 | Inactive with no room temperature: a run changes nothing. |
| `Properties.InitialIsQuiet` | custom_components/dual_smart_thermostat/climate.py:377-379 | A freshly built thermostat does nothing until a reading arrives. |
| `Properties.CycleGuardHoldsHeating` | custom_components/dual_smart_thermostat/climate.py:1316-1323 | An unforced run without a keep-alive tick is held back while the heater has not held its state for the minimum cycle. |
| `Properties.CycleGuardDualPasses` | custom_components/dual_smart_thermostat/climate.py:1325-1334 | In heat-cool mode the guard passes when either switch ran long enough. |
| `Properties.HeatingRuns` | custom_components/dual_smart_thermostat/climate.py:921-940 | Past the gate, a heating run is the cooler switched off and then one decision of the running or the idle branch. |
| `Properties.HeatingIssued` | custom_components/dual_smart_thermostat/climate.py:935-940 | A heating run issues the cooler switch-off first, then the commands of the decision. |
| `Properties.FloorColdStep` | custom_components/dual_smart_thermostat/climate.py:948-1005 | On a cold floor a heating decision leaves a stage on. Without the aux hand-over it switches no stage off. |
| `Properties.FloorColdWhenOn` | custom_components/dual_smart_thermostat/climate.py:948-974 | On a cold floor a running stage stays on. Without the hand-over the only possible command is the heater's switch-on. |
| `Properties.FloorColdWhenOff` | custom_components/dual_smart_thermostat/climate.py:979-997 | On a cold floor idle heating starts, with switch-on commands only. |
| `Properties.FloorColdKeepsHeating` | custom_components/dual_smart_thermostat/climate.py:948-983 | In heating mode a cold floor keeps a stage on after every run, even with a hot room, a hot floor or an open window. Without the aux hand-over no stage is switched off. |
| `Properties.HotFloorOrOpenStopsHeating` | custom_components/dual_smart_thermostat/climate.py:948-953 | With the floor not too cold, a hot floor or an open window leaves both heating stages off. |
| `Properties.SetTargetAboveRoomStartsHeater` | tests/test_heater_mode.py:612-625 | In heat mode, a target above the room temperature by the tolerance makes exactly one command: the heater's switch-on. |
| `Properties.AuxStep` | custom_components/dual_smart_thermostat/climate.py:955-993 | One heating decision starts the aux heater only after the first-stage timeout or when it already ran today. |
| `Properties.AuxNeedsTimeoutOrRunToday` | custom_components/dual_smart_thermostat/climate.py:955-993 | The same for a whole heating run (corrected staging guard). |
| `Properties.AuxHandOver` | tests/test_heater_mode.py:1115-1120 | After the first-stage timeout, a heating run with the heater on and the aux heater off, in a room that is not too hot with a floor that is not hot and closed windows, leaves the aux heater on, records its run today, and keeps the heater on only in dual mode. |
| `Properties.AuxPreferredSameDay` | tests/test_heater_mode.py:1129-1134 | Idle heating in a cold room, with a floor that is not hot and closed windows, starts the aux heater at once when it already ran today; the heater is on afterwards only in dual mode. |
| `Properties.HeatStepIdempotent` | custom_components/dual_smart_thermostat/climate.py:937-1014 | Without a keep-alive tick, with a dead band and no hand-over, a heating decision repeated on its result changes nothing. |
| `Properties.WhenOnIdempotent` | custom_components/dual_smart_thermostat/climate.py:942-974 | The running-branch case of `HeatStepIdempotent`. |
| `Properties.WhenOffIdempotent` | custom_components/dual_smart_thermostat/climate.py:976-1014 | The idle-branch case of `HeatStepIdempotent`. |
| `Properties.HeatingIdempotent` | custom_components/dual_smart_thermostat/climate.py:921-1014 | A second heating run on an unchanged world repeats the first run's result, issuing nothing. |
| `Properties.CoolingRuns` | custom_components/dual_smart_thermostat/climate.py:1016-1070 | Past the gate, a cooling run is one `CoolingDecide` on the latched state. |
| `Properties.OpenWindowStopsCooling` | custom_components/dual_smart_thermostat/climate.py:1050-1070 | With an opening open the controlled device ends off, and every command is a switch-off. |
| `Properties.CoolingFollowsTemperature` | custom_components/dual_smart_thermostat/climate.py:1052-1070 | With closed windows an idle device starts when too hot and a running one stops when too cold. Inside the band the device keeps its state. |
| `Properties.HeaterActsAsCooler` | custom_components/dual_smart_thermostat/climate.py:1028-1042 | Without a cooler, a hot room makes the cooling run switch on the heater entity, with exactly that command. |
| `Properties.CoolingIdempotent` | custom_components/dual_smart_thermostat/climate.py:1016-1070 | A second cooling run on an unchanged world repeats the first run's result. |
| `Properties.HeatCoolRuns` | custom_components/dual_smart_thermostat/climate.py:1072-1108 | Past the gate, a heat-cool run is the interlocks then the toggle, and on a keep-alive tick the toggle once more with the same verdict. |
| `Properties.ToggleExclusive` | custom_components/dual_smart_thermostat/climate.py:1110-1147 | The toggle never leaves both devices on when they were not both on before. |
| `Properties.HeatCoolNeverBothOn` | custom_components/dual_smart_thermostat/climate.py:1085-1108 | Heater and cooler are never both on after a run that started with at most one on. The exception is a cold floor with closed windows. |
| `Properties.HeatCoolFloorColdBothOn` | custom_components/dual_smart_thermostat/climate.py:1090-1093 | With closed windows, a cold floor switches the heater on beside a running cooler. |
| `Properties.HeatCoolOpenStopsBoth` | custom_components/dual_smart_thermostat/climate.py:1087-1089 | Without a keep-alive tick, an open window leaves heater and cooler off. |
| `Properties.KeepAliveReopensHeater` | custom_components/dual_smart_thermostat/climate.py:1099-1108 | On a keep-alive tick with an open window and a cold room, the running heater is switched off and at once back on. |
| `Properties.SaveThenRestore` | custom_components/dual_smart_thermostat/climate.py:1270-1293 | Saving the setpoints and then leaving the presets gives back the setpoints. |
| `Properties.SelectPreset` | custom_components/dual_smart_thermostat/climate.py:1252-1293 | Selecting a preset with an entry installs it and keeps the flags. The setpoints are saved only when coming from "none"; otherwise the saved ones are kept. |
| `Properties.PresetRoundTrip` | tests/test_heater_mode.py:532-550 | "none" then a preset, then a preset (the same or another), then "none" restores the original target, or the original range in range mode. |
| `Properties.SetTemperatureKeepsPreset` | custom_components/dual_smart_thermostat/climate.py:733-760 | A new setpoint keeps the preset mode, the flags and the saved setpoints. |
| `Properties.SwitchFlagsFixed` | custom_components/dual_smart_thermostat/climate.py:1446-1479 | From "none", flags already matching configuration and mode are kept. |
| `Properties.SupportFlagsIdempotent` | custom_components/dual_smart_thermostat/climate.py:1443-1480 | From "none", setting the support flags a second time changes nothing. |
| `Properties.OffStopsEverything` | custom_components/dual_smart_thermostat/climate.py:718-725 | Mode Off leaves heater, cooler and configured aux heater off, issuing switch-offs only. |
| `Properties.HeatStopsCooler` | custom_components/dual_smart_thermostat/climate.py:700-704 | Mode Heat leaves the cooler off. |
| `Properties.CoolStopsHeater` | custom_components/dual_smart_thermostat/climate.py:706-712 | Outside AC mode, a successful switch to Cool leaves the heater and a configured aux heater off. |
| `Properties.HeaterOnlyDecision` | custom_components/dual_smart_thermostat/climate.py:937-1014 | Decision table of a lone heater: it ends in the `HeaterOnlyNext` state, with one command exactly when that state changed. |
| `Properties.RoomReading` | custom_components/dual_smart_thermostat/climate.py:780-791 | A room reading applies the decision table to the new temperature. |
| `Properties.FloorReading` | custom_components/dual_smart_thermostat/climate.py:793-804 | A floor reading applies the decision table to the new floor temperature. |
| `Properties.FirstReading` | custom_components/dual_smart_thermostat/climate.py:1295-1302 | The first room reading activates a lone heater and applies the table. |
| `Properties.HeaterFollowsSensor` | tests/test_heater_mode.py:1259-1281 | The table at target 19 gives: off at 18.6; on at 18.5, 19 and 19.4; off at 19.5. |
| `Properties.FloorLimitsScenario` | tests/test_heater_mode.py:1286-1375 | The table with floor limits 5 and 28 at target 18 reproduces the test's sequence of heater states. |
| `Properties.AuxStagingIgnoresTimeoutAsWritten` | custom_components/dual_smart_thermostat/climate.py:955-963 | As written, a running heater is switched off for the aux heater without any timeout; the corrected decision keeps the heater. |
| `Properties.AcModeEntryStopsAcAsWritten` | custom_components/dual_smart_thermostat/climate.py:706-712 | As written, entering Cool in AC mode in a hot room switches the AC on and at once off. |
| `Properties.AcModeEntryKeepsAc` | custom_components/dual_smart_thermostat/climate.py:706-712 | Corrected: entering Cool in AC mode in a hot room leaves the AC running. |
| `Properties.AcModeReselectStopsAcAsWritten` | custom_components/dual_smart_thermostat/climate.py:706-712 | As written, selecting Cool while the AC (the heater entity) runs in a room that is not too cold issues exactly `SwitchOff(Heater)` and leaves the AC off. |
| `Properties.AcModeReselectKeepsAc` | custom_components/dual_smart_thermostat/climate.py:706-712 | Corrected: the same request leaves the AC running and issues nothing. |

## Left out

- The `asyncio.Lock` and the timers from `async_call_later`. Each controller call is one sequential step, and a deferred callback is an ordinary later call (`ControlClimateForced`, `ControlHeatingForced`). The scheduling of the aux-heater timeout after a first-stage start (climate.py:998-1005) is therefore not represented.
- History lookups (`condition.state`) and `datetime.now()`. "Ran long enough", "first stage timed out" and "today" are fields of `Env` that the host supplies.
- Float parsing of sensor states (climate.py:895-914). A reading is `Unavailable`, `NotFinite` or `Finite(v)`.
- Service dispatch (climate.py:1238-1250). A command is appended to `log` and takes effect at once. The host's tests mock the switch services, so the switches there do not change state; the model does not reproduce that.
- `async_setup_platform`, the configuration schemas, `async_added_to_hass` (state restore, listeners, startup), `_check_switch_initial_state`, `_async_hvac_mode_changed`, display properties, the state attributes and logging. These are host lifecycle and presentation, not decisions.
- The `if cool` test after the early return in `_needs_cycle` (climate.py:1331-1332) can never be true; `NeedsCycle` omits it.
- Engine.HeaterCoolerToggle: its contract states only that it keeps the settings and appends commands. The branch outcomes are the contracts of `HeaterToggle`, `CoolerToggle` and `AutoToggle`, which it dispatches to; `AutoToggle` states the heat, cool and both-off outcomes.
- Engine.ControlHeating: its contract states only the gate, the frame and the latch. The outcomes of a run are stated by `Properties.FloorColdKeepsHeating`, `HotFloorOrOpenStopsHeating`, `AuxNeedsTimeoutOrRunToday` and `HeatingIdempotent`.
- Engine.ControlCooling: likewise. The outcomes are stated by `Properties.OpenWindowStopsCooling`, `CoolingFollowsTemperature` and `CoolingIdempotent`.
- Engine.ControlHeatCool: likewise. The outcomes are stated by `Properties.HeatCoolRuns`, which reduces a run to `HeatCoolDecide` and the toggles, and by `HeatCoolNeverBothOn`, `HeatCoolOpenStopsBoth` and `KeepAliveReopensHeater`.
- Engine.SetPresetMode: its contract covers only the rejection and the no-op. Selecting and leaving are stated by `Properties.SelectPreset` and `PresetRoundTrip`.
- Engine.HeaterWhenOn, Engine.ControlHeating, Engine.ControlClimate, Engine.EnterCool, Engine.SetHvacMode and every trigger built on them run the corrected program: the staging guard of climate.py:955-959 waits for the first-stage timeout, and the Cool entry of climate.py:706-712 leaves the device that cools running in AC mode. The code as written is modelled only by `HeaterWhenOnAsWritten` and `EnterCoolAsWritten` (see Findings), so the run-level lemmas describe the corrected program.
- Engine.ApplyPreset: a name with no entry in the presets of the current mode (a target preset missing from the range presets) raises `MissingPresetEntry`. The source raises a `KeyError` there, after the setpoints were saved.
- Some operations are split into helper functions with no counterpart method of their own in the source, so that each step stays small: `NewSetpoints`, `SaveSetpoints`, `ApplyPreset`, `EnterHeat`, `EnterCool`, `EnterOff`, `CoolingDecide`, `HeatCoolDecide`, `SwitchFlags`. Each is a contiguous block of the cited method.

## Findings

| source | as written | input that shows it | evidently intended | confidence | as-written member | corrected member |
|---|---|---|---|---|---|---|
| custom_components/dual_smart_thermostat/climate.py:955-959 | The staging guard names the method `_first_stage_heating_timed_out` without calling it. A bound method is always true, so the guard holds whenever aux heating is configured and the aux heater is off. | Aux heater and timeout configured, no dual mode, heater on, aux heater off, comfortable room, timeout not reached: the next run switches the heater off and the aux heater on. | Hand over to the aux heater only once the heater has been on for the aux timeout. | not executed | `Properties.AuxStagingIgnoresTimeoutAsWritten` | `Properties.AuxNeedsTimeoutOrRunToday` |
| custom_components/dual_smart_thermostat/climate.py:706-712 | After the cooling run, entering Cool switches the heater entity off whenever any device runs. In AC mode the heater entity is the air conditioner itself. | AC mode, no cooler, the AC (heater entity) already running, room not too cold, windows closed: selecting Cool issues only `SwitchOff(Heater)` and leaves the AC off. This does not depend on when the switch service takes effect, since the AC was running before the request. | Switch off the heating devices only when they are not the device that cools. | not executed | `Properties.AcModeReselectStopsAcAsWritten` | `Properties.AcModeReselectKeepsAc` |
