# Power-arm state machine of the ESP32-S3 e-paper battery test

This project models the power coordination of the battery power test
application for a 1.54" e-paper board (`07_BATT_PWR_Test_nolvgl/user_app.cpp`).
The application keeps one global flag, `s_vbat_flag`, saying whether the
battery (VBAT) domain is armed. At boot it switches on the VBAT, e-paper and
audio rails, initialises the panel and the button driver, scans the button
pin (a high pin arms the flag) and shows the ON screen. A button task then
waits for event-group bits forever. A long press (bit 2) while armed clears
the flag, redraws the OFF screen, puts the panel to sleep, waits 600 ms and
cuts VBAT. A release (bit 3) while disarmed re-arms the flag without
touching the panel or the rails. Anything else does nothing.

The model has three modules:

- `PowerSpec` (`power_spec.dfy`): the commands as an `Action` datatype; the
  bit test; the decoding of a wait result into long press, release or idle;
  the transition table (`React`, `Next`); a finite run of the task loop
  (`Run`); the pin scan (`Scan`); the last screen drawn (`LastShown`); and
  one lemma per case of the transition table.
- `PowerProps` (`power_props.dfy`): lemmas about whole runs. A run issues
  nothing but whole disarm sequences, one per disarm. The rail is cut once
  per disarm. The flag balance holds. The boot log followed by any run keeps
  rails before panel init, panel init before any panel command, and the
  redraw and settle delay before every rail cut.
- `UserApp` (`user_app.dfy`): the class `PowerCoordinator`. Its field
  `vbatArmed` is the global flag and `log` holds the commands issued. Its
  methods follow the C++ functions statement by statement, and each one's
  postcondition ties the new flag and log to the `PowerSpec` functions.
  `PowerUp` is the power-up path: static initialisation, then boot, then
  the button task.

Two behaviours of the code are easy to miss, and the model follows them:

- The flag starts `false` (line 33). After boot the flag equals
  the button pin level, so a boot with the pin low leaves the device
  disarmed with ON on the panel (`PowerProps.DisarmedWhileShowingOn`).
- A release re-arms without redrawing. So "armed with OFF on the panel" is
  reachable (`PowerProps.ArmedWhileShowingOff`), and the model does not
  claim that the panel always matches the flag. What it does prove is
  narrower: every redraw the task issues shows the state just entered
  (`PowerSpec.RedrawMatchesNewState`), and after any disarm the panel shows
  OFF (`PowerProps.ShowsOffAfterAnyDisarm`).
- Both show wrappers (`epd_show_on`, `epd_show_off`) issue a `Hibernate`
  after each full redraw, so the boot log ends `ShowOn, Hibernate`, and the
  off path is `ShowOff, Hibernate, Delay(600), VbatOff`.

Assumption: `get_bit_button(even, n)` belongs to a button driver that is not
part of this model. It is taken to be the plain bit test
`(even >> n) & 1 == 1` on a 32-bit event mask (`PowerSpec.GetBit`).

## Model

| member | source | states |
|---|---|---|
| `PowerSpec.Classify` | 07_BATT_PWR_Test_nolvgl/user_app.cpp:167-185 | a wait result is a long press exactly when bit 2 is set, a release exactly when bit 2 is clear and bit 3 set, and idle exactly when both are clear; the long-press test comes first |
| `PowerSpec.Scan` | 07_BATT_PWR_Test_nolvgl/user_app.cpp:127-133 | the flag after the pin scan is the old flag or the pin level |
| `PowerSpec.ScanOnlyArms` | 07_BATT_PWR_Test_nolvgl/user_app.cpp:127-133 | the scan never clears the flag, scanning twice equals scanning once, and from the initial cleared flag the result is the pin level |
| `PowerSpec.LastShown` | 07_BATT_PWR_Test_nolvgl/user_app.cpp:141-153 | the last screen drawn is a ShowOn or ShowOff present in the log, and there is none only when the log holds no redraw |
| `PowerSpec.DisarmFromArmed` | 07_BATT_PWR_Test_nolvgl/user_app.cpp:148-153 | a long press while armed clears the flag and issues exactly ShowOff, Hibernate, Delay(600), VbatOff, in that order |
| `PowerSpec.LongPressWhileDisarmed` | 07_BATT_PWR_Test_nolvgl/user_app.cpp:167-177 | a long press while disarmed leaves the flag cleared and issues nothing |
| `PowerSpec.LongPressHasPriority` | 07_BATT_PWR_Test_nolvgl/user_app.cpp:167-179 | with bits 2 and 3 both set the step equals the step with bit 3 cleared, so it never re-arms, even from disarmed |
| `PowerSpec.RearmFromDisarmed` | 07_BATT_PWR_Test_nolvgl/user_app.cpp:179-184 | a release without long press while disarmed sets the flag and issues nothing |
| `PowerSpec.ReleaseWhileArmedAndTimeout` | 07_BATT_PWR_Test_nolvgl/user_app.cpp:163-186 | a release while armed, a wait result with neither bit, and the timeout value 0 change neither the flag nor the log |
| `PowerSpec.CutIffDisarm` | 07_BATT_PWR_Test_nolvgl/user_app.cpp:169-174 | a step cuts VBAT if and only if it takes the flag from armed to disarmed, and then exactly once |
| `PowerSpec.RedrawMatchesNewState` | 07_BATT_PWR_Test_nolvgl/user_app.cpp:169-176 | a step that issues anything redraws OFF as its last screen and leaves the flag cleared |
| `PowerProps.RunSnoc` | 07_BATT_PWR_Test_nolvgl/user_app.cpp:161-186 | running one more wait result extends the flag and the log by exactly one loop pass |
| `PowerProps.RunEmitsDisarmBlocks` | 07_BATT_PWR_Test_nolvgl/user_app.cpp:161-186 | everything a run of the task issues is whole, uninterleaved disarm sequences, one per armed-to-disarmed transition |
| `PowerProps.CutsCountDisarms` | 07_BATT_PWR_Test_nolvgl/user_app.cpp:169-174 | the number of VBAT cuts in a run equals the number of steps that take the flag from armed to disarmed |
| `PowerProps.ArmedBalance` | 07_BATT_PWR_Test_nolvgl/user_app.cpp:167-185 | initial flag plus re-arms equals final flag plus disarms, so the numbers of disarms and re-arms differ by at most one |
| `PowerProps.AtMostOneCutWithoutRearm` | 07_BATT_PWR_Test_nolvgl/user_app.cpp:167-185 | with no re-arm, any number of long presses cut VBAT at most once, and from disarmed issue nothing |
| `PowerProps.TwoLongPresses` | 07_BATT_PWR_Test_nolvgl/user_app.cpp:167-177 | two long presses in a row issue one disarm sequence when armed and nothing when disarmed, and end disarmed |
| `PowerProps.CutsGuardedAppend` | 07_BATT_PWR_Test_nolvgl/user_app.cpp:172-174 | joining two logs in which every cut follows redraw, sleep and settle delay keeps that ordering |
| `PowerProps.RepeatDisarmGuarded` | 07_BATT_PWR_Test_nolvgl/user_app.cpp:172-174 | any number of disarm sequences in a row keep every cut right after ShowOff, Hibernate, Delay(600) |
| `PowerProps.RepeatCutCount` | 07_BATT_PWR_Test_nolvgl/user_app.cpp:174 | n disarm sequences in a row contain exactly n VBAT cuts |
| `PowerProps.RepeatMembers` | 07_BATT_PWR_Test_nolvgl/user_app.cpp:172-174 | repeated disarm sequences contain only the commands of one disarm sequence |
| `PowerProps.BootLogWellOrdered` | 07_BATT_PWR_Test_nolvgl/user_app.cpp:192-209 | in the boot log all three rails precede panel init and every panel command follows it |
| `PowerProps.RailsBeforeInitAppend` | 07_BATT_PWR_Test_nolvgl/user_app.cpp:194-198 | appending commands that do not re-initialise the panel keeps the three rails before every panel init |
| `PowerProps.InitBeforeDrawAppend` | 07_BATT_PWR_Test_nolvgl/user_app.cpp:198-209 | once the panel is initialised, every later panel command follows panel init |
| `PowerProps.SessionWellOrdered` | 07_BATT_PWR_Test_nolvgl/user_app.cpp:192-213 | the boot log followed by any run of the task keeps rails before panel init, panel init before panel commands, and the settle delay before every cut |
| `PowerProps.LastShownAppend` | 07_BATT_PWR_Test_nolvgl/user_app.cpp:141-153 | the last screen of a joined log is the later part's last screen when it has one, else the earlier part's |
| `PowerProps.RepeatLastShown` | 07_BATT_PWR_Test_nolvgl/user_app.cpp:148-153 | one or more disarm sequences leave OFF as the last screen |
| `PowerProps.ShowsOffAfterAnyDisarm` | 07_BATT_PWR_Test_nolvgl/user_app.cpp:169-176 | after any log, a run that disarms at least once leaves OFF as the last screen, whatever the flag is at the end |
| `PowerProps.ArmedWhileShowingOff` | 07_BATT_PWR_Test_nolvgl/user_app.cpp:179-184 | boot with the pin high, a long press, then a release leaves the device armed with OFF on the panel |
| `PowerProps.DisarmedWhileShowingOn` | 07_BATT_PWR_Test_nolvgl/user_app.cpp:33 | boot with the pin low leaves the flag cleared with ON on the panel |
| `UserApp.PowerCoordinator.constructor` | 07_BATT_PWR_Test_nolvgl/user_app.cpp:33 | the flag starts cleared and nothing has been issued |
| `UserApp.PowerCoordinator.Issue` | 07_BATT_PWR_Test_nolvgl/user_app.cpp:194-196 | a rail, panel or delay command appends one action and leaves the flag alone |
| `UserApp.PowerCoordinator.EpdShowOn` | 07_BATT_PWR_Test_nolvgl/user_app.cpp:141-146 | appends ShowOn then Hibernate and leaves the flag alone |
| `UserApp.PowerCoordinator.EpdShowOff` | 07_BATT_PWR_Test_nolvgl/user_app.cpp:148-153 | appends ShowOff then Hibernate and leaves the flag alone |
| `UserApp.PowerCoordinator.ScanStatus` | 07_BATT_PWR_Test_nolvgl/user_app.cpp:127-133 | the new flag is the old flag or the pin level, a set flag stays set, and the log is unchanged |
| `UserApp.PowerCoordinator.Step` | 07_BATT_PWR_Test_nolvgl/user_app.cpp:163-185 | one loop pass sets the flag and appends to the log exactly as the transition table `Next` says |
| `UserApp.PowerCoordinator.Serve` | 07_BATT_PWR_Test_nolvgl/user_app.cpp:158-187 | looping over a sequence of wait results sets the flag and appends to the log exactly as `Run` says |
| `UserApp.PowerCoordinator.UserAppInit` | 07_BATT_PWR_Test_nolvgl/user_app.cpp:192-200 | appends VbatOn, EpdOn, AudioOn, EpdInit, ButtonInit in that order and leaves the flag alone |
| `UserApp.PowerCoordinator.UserUiInit` | 07_BATT_PWR_Test_nolvgl/user_app.cpp:205-209 | the new flag is the old flag or the pin level, and the log gains ShowOn then Hibernate |
| `UserApp.PowerCoordinator.Boot` | 07_BATT_PWR_Test_nolvgl/user_app.cpp:192-209 | the log gains the whole boot log, and the new flag is the old flag or the pin level |
| `UserApp.PowerUp` | 07_BATT_PWR_Test_nolvgl/user_app.cpp:33-213 | after power-up, boot and any run, the flag is the run's result from the pin level, the log is the boot log plus the run's commands, and every ordering guarantee holds |

## Left out

- Panel rendering (`epd_begin_full`, `drawCenteredText`, `epd_showMessage_full`, lines 38-86): SPI set-up, fonts and text centring are library calls. They appear only as the `EpdInit`, `ShowOn`, `ShowOff` and `Hibernate` actions. The two message strings are not modelled.
- `epd_showStatus_partial` (lines 91-100): nothing calls it.
- `led_test_task` (lines 105-122): an independent GPIO blink loop that never touches the flag.
- Event group wait and task creation (`xEventGroupWaitBits` with its 2000 ms timeout, `xTaskCreatePinnedToCore`): each wait result is an input to `Step`. `Serve` runs the endless loop over a finite sequence of wait results. Scheduling and concurrency are not modelled.
- `vTaskDelay` timing and `pdMS_TO_TICKS` rounding: the settle delay is the action `Delay(600)`, not elapsed time.
- Board power driver internals (`board_power_bsp_t`): rail switching is the opaque actions `VbatOn`, `EpdOn`, `AudioOn` and `VbatOff`.
- `get_bit_button`: its driver is not part of this model. It is assumed to be a plain test of bit n.
- Power loss after `VBAT_POWER_OFF` (line 175): it depends on the hardware. The model records the cut and lets the loop continue, as the software does when power stays up.
- `gpio_get_level`: the pin level is the boolean input `pinHigh`, true for any non-zero level.
- `UserApp.PowerCoordinator.UserUiInit` and `UserApp.PowerCoordinator.Boot`: the scan issues no action, and the pin level is the parameter `pinHigh` rather than a read of the pin at line 207. Their contracts therefore give the final flag and the final log, but not where the scan falls relative to the logged commands. The method bodies do call the scan between button init and the ON screen.
