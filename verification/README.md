# Verification model of the CLAMIR embedded software

CLAMIR controls a laser from infrared images of the melt pool. This project models the parts of its embedded
software where a mistake would be hard to see, and proves what they promise for every input, every run and every
interleaving. `dafny verify dfyconfig.toml` checks all of it.

- **Melt-pool width** (`Width.dfy`). The width formula has two nested square roots. An image is a list of
  weighted points, its moments are sums over them, and a Cauchy-Schwarz argument over the image shows that both
  radicands are never negative. The width turns out to be four standard deviations along the narrowest direction,
  and does not change under translation, exposure or exchange of the axes.
- **Control loop** (`Registers.dfy`, `Window.dfy`, `Shutter.dfy`, `Alarm.dfy`, `Automaton.dfy`, `AutoShutter.dfy`,
  `ControlLoop.dfy`). One iteration of `nit_process_core_run` is the method `Loop.Tick`, proved equal to the
  function `Step` on values. `Step` is built from one function per component. `AutomatonRuns.dfy` and
  `LoopRuns.dfy` prove theorems about all runs: the sliding mean, the shutter timeline, the exact tick at which
  the loop closes, slew, anti-windup, the end of the process, the debounced alarm, the PWM range, the automatic
  shutter requests. `MeasuringRuns.dfy` adds the reference width, the counting of laser edges and the delay,
  `LaserRuns.dfy` the detection of the laser, and `PowerRuns.dfy` what the closed loop puts out: the step response,
  the saturating integral, the walk along the slew, and the end when the laser goes off.
- **Track time** (`TrackTime.dfy`): from the command handlers through two registers to the control loop.
- **Sensor calibration** (`Calibration.dfy`): the tables, the reset and the correction as array methods; an error
  bound for the fixed-point arithmetic; flat-field recovery over the reals and with the stored tables.
- **Derivative limiter and PID** (`Limiter.dfy`, `Pid.dfy`), alone and as a cascade.
- **Thread pool and signals** (`ThreadPool.dfy`, `Signal.dfy`): atomic steps in every interleaving.
- **Legacy packet** (`Codec.dfy`): bit fields for any msb and lsb, and the packet's round trips.

## How the model reads the code

- Floating-point numbers are reals, with a NaN where the PID controller can divide zero by zero, and `sqrt` is any
  function with the defining property of the square root on non-negative numbers (`RealMath.IsSqrt`). Integer widths
  are modelled where they matter: the 16-bit alarm counter, laser and automeasure flags, the 32-bit shutter timer,
  the 64-bit track time, the 32-bit tables and 16-bit pixels. Other counters are unbounded. `abs` of a
  floating-point value is the floating-point overload.
- The shared registers are sampled once per tick, and only the tick writes the shutter; a request for a nap may
  come from outside at any tick. Anything the loop re-reads in every iteration is an input of the tick. The two
  power variables agree between ticks, so the state keeps one. The automaton's variables form one record of the
  class. The temperature that the source leaves unset before the first iteration starts at 0.
- The class methods are the imperative code; each is tied by its contract to a function of the old state, and the
  lemmas are about those functions.
- A conversion to a signed integer that does not fit is stored as two's complement; the error bound assumes that
  everything fits. A PWM word is `None` where the conversion is undefined.
- Under the pool's mutex the wait, the test of the flag and the pop are one step: the flag is never cleared, so
  the two reads of it cannot disagree in a way that matters. An action that its mutex or its worker does not allow
  changes nothing, so a run is any sequence of events.

## What the proofs found

- PREHEATING can be reached in one tick from any state when the mode register changes, to a mode other than
  2, in that tick: the change to IDLE comes before the switch (`AutomatonRuns.PreheatingEntered`). Three ticks from
  the start of the loop are enough (`LoopRuns.PreheatingReached`).
- Slew and anti-windup bounds hold with the absolute value of the register, so also for negative registers.
- One whole nap leaves the closed loop running if and only if END_OF_PROCESS is at least 748
  (`LoopRuns.NapSurvival`).
- Preheating lasts one tick more than PREHEATING_TIME; `TODO.md` describes it as that time. `TODO.md` also gives the
  laser-on condition as below START_TRACK; the code has it as at or above, and the model follows the code.
- The loop does not set the shutter register when it starts. If it finds the shutter closed, it stays closed with
  no nap running until the first nap opens it, and otherwise it is closed exactly when the nap counter is at least
  99 (`LoopRuns.ShutterAlways`).
- DELAY_LASER_ON delays the closed loop for half as many ticks as it says, rounded up: a measuring tick takes one
  off before the state switch and one in it (`MeasuringRuns.DelayLasts`).
- The reset of the calibration tables runs its columns to the height. It covers the frame if and only if there
  are no rows or at most as many columns as rows (`Calibration.ResetComplete`), and it stays inside frame-sized
  arrays if and only if there are at most as many rows as columns (`Calibration.ResetInBounds`).
- The derivative limiter approaches its target if and only if its maximum is not negative; the interval may be
  negative. Fed by the PID controller it is fed only when that output changes. When the output changes to u and
  stays there, the limited output is u if and only if the allowance of that one input covers the distance, however
  long the output stays (`PidCascade.CascadeArrives`); `PidCascade.CascadeFallsShort` is a saturated run that stays
  at 1 with 10 asked for.
- Two polls at the same clock reading with an unchanged derivative part divide zero by zero. The limited output is
  a number exactly until the first such poll, and NaN for ever after it
  (`PidCascade.CascadeNumber`, with a run in `PidCascade.CascadeTurnsNaN`).
- The controller's setup uses the smallest positive number as every lower bound; a lower bound is negative if and
  only if it was or some setter has asked for that (`PidCascade.LowerBoundNegative`). The setter of the error's
  upper bound compares with the lower bound, so it ignores that one value; it lets every positive value through if
  and only if the lower bound is not positive or equals the upper one (`PidCascade.ErrorMaxTakesEffect`).
- A route identifier loses bit 7 and bits 12 to 15 on the wire (`LegacyPacket.RouteOverWire`).
- A shutdown drains the queue if and only if, when the flag is set, no more tasks are queued than workers wait;
  otherwise exactly the tasks in excess stay behind, provided nothing is submitted meanwhile
  (`ThreadPool.ShutdownDrains`). `ThreadPool.ShutdownLeavesTask` is a run that leaves one.

## Model

| member | source | states |
|---|---|---|
| MeltPoolWidth.SpreadIsQuadratic | src/drivers/process_core.cpp:1375-1379 | the central moments that the formula computes are the quadratic form of the image's mean squared extent about its centroid, in every direction |
| MeltPoolWidth.CentralMomentsBounded | src/drivers/process_core.cpp:1375-1379 | for every non-negative image u20 and u02 are non-negative and u20 u02 is at least u11 squared |
| MeltPoolWidth.WidthDefined | src/drivers/process_core.cpp:1381-1384 | for every non-negative image, blank ones included, both square roots are taken of non-negative numbers |
| MeltPoolWidth.WidthIsSmallerRoot | src/drivers/process_core.cpp:1360-1386 | W squared over 16 is a root, and the smallest, of the characteristic polynomial of the central moments |
| MeltPoolWidth.WidthIsNarrowestExtent | src/drivers/process_core.cpp:1360-1386 | W squared over 16 bounds the image's mean squared extent from below in every direction and is attained in one |
| MeltPoolWidth.WidthScaled | src/drivers/process_core.cpp:900-902 | for any ratio, the scaled width squared is (4 ratio) squared times the least mean squared extent of the image |
| MeltPoolWidth.WidthTranslationInvariant | src/drivers/process_core.cpp:1372-1384 | moving the image does not change the width |
| MeltPoolWidth.WidthBrightnessInvariant | src/drivers/process_core.cpp:1372-1384 | multiplying all intensities by a positive constant does not change the width |
| MeltPoolWidth.WidthAxesInvariant | src/drivers/framebuffer_core.cpp:351-357 | exchanging the axes, or only the order of the moments in the metadata, does not change the width |
| WidthWindow.WindowSize | src/drivers/process_core.cpp:826-830 | the window size is the value of 1 to 512 that is nearest to the register |
| WidthWindow.MeasureAppends | src/drivers/process_core.cpp:898-903 | a measurement appends the sample to the window and drops its oldest slot; with an index beyond a shrunken size the window starts again at its first slot |
| WidthWindow.MeasureAverages | src/drivers/process_core.cpp:904-908 | the averaged width is the mean of the slots in age order |
| WidthWindow.SlidesStep | src/drivers/process_core.cpp:898-908 | the circular buffer refines a sliding window: the newest slots are the latest samples |
| WidthWindow.SlidesMean | src/drivers/process_core.cpp:898-908 | once the window has filled, the width is the mean of exactly the last N samples |
| ShutterNap.NapAlwaysTimed | src/drivers/process_core.cpp:875-930 | for every initial shutter and every request pattern both nap counters agree, stay below 750 and fix the calibration counter and the offset update; the shutter is closed exactly from 99 up, or while it has been closed from the start with no nap begun |
| ShutterNap.NapTimeline | src/drivers/process_core.cpp:910-930 | the whole state of every tick of a nap, whatever is requested meanwhile |
| ShutterNap.OneUpdatePerNap | src/drivers/process_core.cpp:920-924 | for every initial shutter, naps started equal offset updates raised, up to the nap still before its 151st tick, and every update happens behind a closed shutter |
| WidthAlarm.AlarmCounts | src/drivers/process_core.cpp:1176-1191 | counter and alarm as functions of the length of the unbroken stretch of bad ticks, for every register value |
| WidthAlarm.AlarmDebounce | src/drivers/process_core.cpp:1176-1191 | the alarm is 1 if and only if this tick and the T before it were bad |
| AutomatonRuns.Transitions | src/drivers/process_core.cpp:831-847 | after every tick MANUAL if and only if mode 2; CONTROL only from MIDIENDO or CONTROL in an unchanged mode; PREHEATING only through the IDLE branch |
| AutomatonRuns.PreheatingEntered | src/drivers/process_core.cpp:950-964 | a tick enters PREHEATING if and only if it idles at the switch, by state or by a mode change, sees the laser, and preheating is enabled |
| AutomatonRuns.PreheatingFromControl | src/drivers/process_core.cpp:831-847 | a concrete tick that goes from CONTROL straight to PREHEATING |
| AutomatonRuns.PowerInLimits | src/drivers/process_core.cpp:1126-1132 | the output of every tick lies in the configured limits when they are ordered |
| AutomatonRuns.TallyStep | src/drivers/process_core.cpp:992-998 | in mode 0 a counting tick adds one to track * (track_length + 1) + track_cnt, preheating keeps it, idling clears it |
| AutomatonRuns.TallyIsCountedTicks | src/drivers/process_core.cpp:1047-1053 | over every run in mode 0 that tally is the number of MIDIENDO and CONTROL ticks since IDLE, with track_cnt at most track_length |
| AutomatonRuns.TimeToControl | src/drivers/process_core.cpp:950-1041 | the exact state of every tick from laser-on to CONTROL, reached after the preheating and max(1, REFERENCE_TRACK * (track_length + 1)) ticks, whatever the laser does |
| MeasuringRuns.ReferenceWidth | src/drivers/process_core.cpp:1014-1041 | over every run, the tick that enters CONTROL with automeasure takes as reference the mean of the widths of exactly the MIDIENDO ticks with the laser on and the first reference track reached, and 0 when there were none |
| MeasuringRuns.TracksAreEdges | src/drivers/process_core.cpp:999-1011 | over every run in mode 1, track is the number of rising laser edges of MIDIENDO and CONTROL ticks since IDLE, less those detected in the image during a nap, and MIDIENDO ends when it reaches REFERENCE_TRACK |
| MeasuringRuns.DelayRun | src/drivers/process_core.cpp:1068-1069 | over every stretch of CONTROL ticks without a counted edge, measuring ticks take two off the delay and nap ticks one, and a tick is delayed exactly when the delay covers what has been taken with it |
| MeasuringRuns.DelayLasts | src/drivers/process_core.cpp:895-897 | a register value D delays exactly the first ceil(D / 2) ticks, the tick of the edge included |
| AutomatonRuns.SlewTick | src/drivers/process_core.cpp:1068-1133 | on every kind of CONTROL tick an output inside the limits moves by at most the slew and stays inside |
| AutomatonRuns.SlewRun | src/drivers/process_core.cpp:1068-1133 | over any stretch of CONTROL ticks with fixed limits the output moves by at most the summed slew |
| AutomatonRuns.AntiWindup | src/drivers/process_core.cpp:1081-1095 | after every computing tick the integral is within its limit, and its part of the power within LIMIT_INTEGRAL |
| AutomatonRuns.IntegralKept | src/drivers/process_core.cpp:1068-1079 | delayed and stopped ticks leave the integral alone |
| AutomatonRuns.IntegralBoundedRun | src/drivers/process_core.cpp:1081-1095 | with fixed gains the integral stays within its limit through the whole CONTROL run |
| AutomatonRuns.IntegralIsErrorSum | src/drivers/process_core.cpp:1033-1095 | while no partial sum reaches the limit the integral is dt times the sum of all errors since CONTROL was entered |
| PowerRuns.OutputByState | src/drivers/process_core.cpp:937-1023 | outside the closed loop the output is the manual power, or the preheating power while preheating, or the previous output on the tick that leaves IDLE, brought inside the limits |
| PowerRuns.RestartClears | src/drivers/process_core.cpp:942-978 | a mode change, MANUAL and IDLE clear the tracks and the delay |
| PowerRuns.IntegralRamp | src/drivers/process_core.cpp:1081-1095 | over every run with a constant error the integral grows by error times dt a tick up to its limit and stays there |
| PowerRuns.StepResponse | src/drivers/process_core.cpp:1081-1115 | over every run of computing ticks with a constant error from a cleared controller, inside slew and limits, the output of tick k is POWER_MAN + KP e + KI times the integral, plus KD e on the first tick only |
| PowerRuns.SlewArrives | src/drivers/process_core.cpp:1104-1115 | with the proportional part alone the output walks to its target by exactly LIMIT_SLEW / 100 a tick, arrives and stays |
| PowerRuns.ReferenceHeld | src/drivers/process_core.cpp:932-935 | through a closed-loop run the reference width is the last one set, WIDTH_REF / 100, or the one at its start |
| PowerRuns.StoppedTick | src/drivers/process_core.cpp:1071-1077 | with the laser off or a nap, and no delay, a closed-loop tick counts as stopped and ends the process once more than END_OF_PROCESS have been counted |
| PowerRuns.ComputingTick | src/drivers/process_core.cpp:1079-1115 | with the laser on, no delay and no nap, a closed-loop tick clears the stop count, holds the integral inside its limit and aims from the error at the output |
| PowerRuns.DarkEnds | src/drivers/process_core.cpp:1071-1077 | when the laser goes off, or a nap runs, CONTROL lasts exactly until the (END_OF_PROCESS + 2)-th such tick and then is IDLE |
| LaserRuns.LaserExternal | src/drivers/process_core.cpp:855-856 | with external control the laser status is the digital input |
| LaserRuns.LaserHysteresis | src/drivers/process_core.cpp:858-866 | over every run with detection the laser is on exactly when the intensity has reached START_TRACK and has not been below END_OF_TRACK since, or was on at the start and the intensity never was |
| AutomatonRuns.StopCounts | src/drivers/process_core.cpp:1068-1079 | a stopped tick counts, a delayed one does not, and the count END_OF_PROCESS + 2 leads to IDLE |
| AutomatonRuns.StopCountRestarts | src/drivers/process_core.cpp:1027-1041 | entering CONTROL starts with a clear stop count, integral and error; a computing tick clears the count |
| AutomatonRuns.EndOfProcess | src/drivers/process_core.cpp:1068-1079 | since the last computing tick CONTROL ends exactly on stopped tick END_OF_PROCESS + 2, for every mix of stopped and delayed ticks |
| AutoShutter.TimerPeriod | src/drivers/process_core.cpp:1194-1245 | in timer mode, when every tick permits a request and naps come only from the register, the register is set after exactly the multiples of target + 1, for ever, also when a nap is running |
| AutoShutter.RequestsRaised | src/drivers/process_core.cpp:1194-1245 | for every configuration, changing or not, every pattern of naps and every sequence of states, the register is set exactly when the tick permits a request and one waits, and a request is pending exactly until then |
| AutoShutter.PermitsWhen | src/drivers/process_core.cpp:1211-1245 | outside the process bit 0 of the configuration permits a request, in it bits 0 and 1 together, and preheating never does |
| AutoShutter.TimerRuns | src/drivers/process_core.cpp:1194-1245 | in timer mode, for every pattern of naps and every sequence of states, a request falls due target + 1 ticks after the timer last ran out or a nap was started, is pending while no state permits it, and is raised on the first tick that does |
| AutoShutter.TimerAlwaysPermitted | src/drivers/process_core.cpp:1194-1245 | when every tick permits a request the register is set after exactly the ticks on which the timer runs out, and nothing is ever pending |
| AutoShutter.DriftRuns | src/drivers/process_core.cpp:1202-1209 | in drift mode a request falls due exactly when the temperature has left the band around its value at the last drift or before the last nap, is raised on the first tick that permits it, and the temperature is in the band of the new reference after every tick |
| ControlLoop.Loop.constructor | src/drivers/process_core.cpp:722-772 | the object starts in the state that the runs start from |
| ControlLoop.Loop.SampleMode | src/drivers/process_core.cpp:831-847 | a changed mode register restarts the automaton in MANUAL or IDLE |
| ControlLoop.Loop.SampleLaser | src/drivers/process_core.cpp:855-867 | the laser status from the input or from the intensity with hysteresis |
| ControlLoop.Loop.ServeRequest | src/drivers/process_core.cpp:875-892 | a request is cleared, and starts a nap and the drift references only when none is running |
| ControlLoop.Loop.MeasureWidth | src/drivers/process_core.cpp:898-909 | the array loop stores one sample and averages as the window function does |
| ControlLoop.Loop.NapTick | src/drivers/process_core.cpp:910-930 | one tick of a nap is one step of the nap's state machine |
| ControlLoop.Loop.MeasureOrNap | src/drivers/process_core.cpp:893-930 | exactly one of measuring and napping happens, and each leaves the other's state alone |
| ControlLoop.Loop.ServeShutter | src/drivers/process_core.cpp:875-930 | request and nap together are one step of the nap's state machine |
| ControlLoop.Loop.Observe | src/drivers/process_core.cpp:831-935 | all that precedes the state switch, on all of the state |
| ControlLoop.Loop.CountTrack | src/drivers/process_core.cpp:1047-1067 | counting by time in mode 0 and by laser edges in mode 1 |
| ControlLoop.Loop.DoIdle | src/drivers/process_core.cpp:950-978 | the IDLE branch, with the reassembled track length |
| ControlLoop.Loop.DoMidiendo | src/drivers/process_core.cpp:990-1041 | the MIDIENDO branch, with the reference width taken on entering CONTROL |
| ControlLoop.Loop.ComputePower | src/drivers/process_core.cpp:1079-1115 | the PID law with its clamps and slew |
| ControlLoop.Loop.DoControl | src/drivers/process_core.cpp:1043-1118 | the CONTROL branch: delayed, stopped or computing |
| ControlLoop.Loop.DoSwitch | src/drivers/process_core.cpp:937-1121 | the whole state switch |
| ControlLoop.Loop.LimitPower | src/drivers/process_core.cpp:1126-1141 | the clamped output and its duty word |
| ControlLoop.Loop.UpdateAlarm | src/drivers/process_core.cpp:1176-1191 | the alarm update is one step of the debounce |
| ControlLoop.Loop.UpdateAutoShutter | src/drivers/process_core.cpp:1193-1245 | timer, drift and the request they raise |
| ControlLoop.Loop.Tick | src/drivers/process_core.cpp:783-1245 | one iteration takes the whole state to the step function's result |
| ControlLoop.Loop.Run | src/drivers/process_core.cpp:783-1309 | the loop on any sequence of samples ends in the state that the run theorems are about |
| LoopRuns.AutomatonOfRun | src/drivers/process_core.cpp:937-1121 | the automaton inside a loop run is an automaton run, so every automaton theorem holds of the loop |
| LoopRuns.AutoOfRun | src/drivers/process_core.cpp:1193-1245 | the automatic shutter inside a loop run is a run of its own; requests from outside act on it only by starting a nap |
| LoopRuns.RequestsOfRun | src/drivers/process_core.cpp:1193-1245 | over every loop run from the start, with any configuration, a request is pending exactly until the first tick that permits it and is raised then |
| LoopRuns.TimerOfRun | src/drivers/process_core.cpp:1193-1245 | over every loop run from the start with bit 3 set and AUTOSHUTTER_TIMER t, requests fall due 10000 t + 1 ticks after the timer last ran out or a nap was started, and wait until a state permits them |
| LoopRuns.DriftOfRun | src/drivers/process_core.cpp:1193-1245 | over every loop run from the start with bit 3 clear and AUTOSHUTTER_TEMP in tenths of a degree, requests fall due when the temperature leaves that band, and wait until a state permits them |
| LoopRuns.ShutterTimeline | src/drivers/process_core.cpp:875-930 | from any loop state outside a nap, the 750 ticks from a request in the register or from outside follow one timeline |
| LoopRuns.NoRequestNoNap | src/drivers/process_core.cpp:875-892 | outside a nap a tick without a request starts none and leaves the shutter alone |
| LoopRuns.ShutterAlways | src/drivers/process_core.cpp:875-930 | over all runs from the start, with any initial shutter register, timers, shutter and offset updates agree |
| LoopRuns.AlarmDebounceRun | src/drivers/process_core.cpp:1176-1191 | over all runs the alarm is 1 exactly when after each of the last T + 1 ticks the alarm was enabled, the laser on and 100 times the width outside ALARM_MIN to ALARM_MAX |
| LoopRuns.WidthIsSlidingMean | src/drivers/process_core.cpp:893-912 | from any buffer contents, after N measuring ticks the width is the mean of the last N samples, naps in between or not |
| LoopRuns.SampleIsNarrowest | src/drivers/process_core.cpp:1360-1386 | for every non-negative image whose six moments stand in the metadata, the sample in millimetres squared is (4 PIXEL_MM_RATIO / 1000) squared times the least mean squared extent, a bound in every direction attained in one |
| LoopRuns.WindowTick | src/drivers/process_core.cpp:893-912 | a tick measures exactly when no nap runs and none is requested; a nap freezes buffer and width, and a measuring tick leaves the index inside the current size |
| LoopRuns.ReachedAlways | src/drivers/process_core.cpp:831-847 | the invariant of all reachable states, with MANUAL if and only if mode 2 after every tick |
| LoopRuns.PwmInRange | src/drivers/process_core.cpp:1126-1141 | with limits inside the power range the PWM word is defined, within 14 bits, and 0 and 16383 at the two ends |
| LoopRuns.PwmShare | src/drivers/process_core.cpp:1139-1141 | the PWM word is the power's share of the range from the signed MIN_POWER to MAX_POWER in 16383 parts, rounded down |
| LoopRuns.TrackTimeToControl | src/drivers/process_core.cpp:954-1041 | writing the 16-bit track time v makes the loop close after exactly max(1, REFERENCE_TRACK * (100 v + 1)) counting ticks |
| LoopRuns.NapSurvival | src/drivers/process_core.cpp:1068-1079 | a whole nap cannot end the process if and only if END_OF_PROCESS is at least 748 |
| LoopRuns.PreheatingReached | src/drivers/process_core.cpp:831-847 | three ticks from the start of the loop that go through MIDIENDO and CONTROL straight to PREHEATING |
| LoopRuns.FirstTick | src/drivers/process_core.cpp:722-772 | in mode 0 the first tick puts out the manual power and is IDLE, even with the laser on |
| TrackTime.TrackTimeRegisters.Write | src/clamir_service.cpp:725-745 | the two words hold the scaled value without loss; a failure at the first register changes nothing and gives -1, one at the second leaves the high word written and gives -2 |
| TrackTime.TrackTimeRegisters.Read | src/clamir_service.cpp:702-723 | the registers scaled back, or an error status |
| TrackTime.TrackTimeEndToEnd | src/clamir_service.cpp:702-745 | for every 16-bit value what was written reads back and reaches the loop as 100 times the value with no wrap-around |
| TrackTime.RoundTrip | src/drivers/process_core.cpp:965-970 | writing and then reading returns the value and leaves its track length |
| Calibration.SensorCorrection.AverageOf | src/drivers/scc_core.cpp:917-943 | the nested loops compute the mean of the frame |
| Calibration.SensorCorrection.Reset | src/drivers/scc_core.cpp:425-448 | exactly the pixels reached get their default, in all four arrays |
| Calibration.ResetComplete | src/drivers/scc_core.cpp:438-446 | the reset reaches every pixel if and only if there are no rows or the width is at most the height |
| Calibration.ResetIsIdentity | src/drivers/scc_core.cpp:443-444 | the reset tables correct every 16-bit value to itself |
| Calibration.ResetInBounds | src/drivers/scc_core.cpp:438-446 | in frame-sized arrays the reset writes inside if and only if the height is at most the width |
| Calibration.SensorCorrection.FitPixels | src/drivers/scc_core.cpp:951-975 | live pixels get the fitted entries, dead ones keep theirs |
| Calibration.SensorCorrection.CalibrateUpdate | src/drivers/scc_core.cpp:904-978 | the update with its error case: equal means reset the tables and return -1 |
| Calibration.SensorCorrection.ProcessEval | src/drivers/scc_core.cpp:1037-1051 | every pixel is corrected from the old source, also when the target is the source |
| Calibration.CorrectionError | src/drivers/scc_core.cpp:1042-1048 | the corrected integer is within 1 + (abs x + 1) / 16383 of the exact line for every sample that fits |
| Calibration.CalibrationError | src/drivers/scc_core.cpp:951-975 | after calibration every live pixel maps its own two samples that close to the two frame means |
| Calibration.SensorCorrection.CorrectOwnFrames | src/drivers/scc_core.cpp:917-978 | calibrating and then correcting the two stored frames brings every live pixel that fits close to the mean of its frame |
| Calibration.FlatField | src/drivers/scc_core.cpp:917-975 | with linear pixels and different means, every pixel reads the mean response under every light |
| Calibration.FlatFieldFrames | src/drivers/scc_core.cpp:917-975 | with the stored tables: two uniform exposures calibrate, and in a frame of any uniform light every pixel that fits comes out within 1 + (abs x + 1) / 16383 of the mean of that frame |
| DerivativeLimiter.Limiter.constructor | include/nit/embedded/math/control.hpp:61-61 | the maximum is the absolute value of the limit |
| DerivativeLimiter.Limiter.InputSet | include/nit/embedded/math/control.hpp:36-59 | the output after one input, and a notification exactly when the input differs |
| DerivativeLimiter.LimitDistance | include/nit/embedded/math/control.hpp:39-55 | one input shortens the distance by exactly max times the interval, down to zero |
| DerivativeLimiter.LimitBetween | include/nit/embedded/math/control.hpp:39-55 | the output never passes the target and moves no faster than the maximum |
| DerivativeLimiter.LimitApproaches | include/nit/embedded/math/control.hpp:28-32 | the output never moves away from its target if and only if the maximum is not negative |
| DerivativeLimiter.LimitRun | include/nit/embedded/math/control.hpp:36-59 | towards a fixed target the distance is the initial one less the summed allowance, down to zero |
| DerivativeLimiter.LimitArrives | include/nit/embedded/math/control.hpp:36-59 | the output has arrived if and only if the allowance covers the initial distance, and then stays |
| PidCascade.PidController.Poll | include/nit/embedded/math/control.hpp:145-200 | one poll on all of the controller's state for every interval, zero included, notifying exactly on a changed output |
| PidCascade.BoundsStraddleZero | include/nit/embedded/math/control.hpp:334-390 | from any positive upper bound, what the setup leaves included, the bounds straddle zero if and only if the lower one was negative or a setting asked for it; ordered bounds clip as a projection |
| PidCascade.LowerBoundNegative | include/nit/embedded/math/control.hpp:344-350 | a lower bound is negative if and only if it was or some setting asked for it |
| PidCascade.ErrorMaxTakesEffect | include/nit/embedded/math/control.hpp:334-340 | the odd guard lets every positive value through if and only if the lower bound is not positive or equals the upper one |
| PidCascade.ClipInside | include/nit/embedded/math/control.hpp:156-159 | clipping lands in the bounds for every input if and only if they are ordered |
| PidCascade.ClipNearest | include/nit/embedded/math/control.hpp:156-159 | clipping lands on the value of the range nearest to the input |
| PidCascade.PollBounds | include/nit/embedded/math/control.hpp:145-196 | error, integral, derivative and output of every poll are inside their own bounds |
| PidCascade.PollInstant | include/nit/embedded/math/control.hpp:168-173 | with no time between two polls a change of the error takes the derivative part to the bound on its side, and no change makes it NaN |
| PidCascade.PidStepResponse | include/nit/embedded/math/control.hpp:145-200 | for every number of polls with a constant error from rest, the integral part is ki e dt a poll up to its bound, and the output is the clipped set point plus the three parts, the derivative on the first poll only |
| PidCascade.PidUnbounded | include/nit/embedded/math/control.hpp:145-200 | when no bound is reached the output of poll k is set point + kp e + k ki e dt, plus kd e / dt on the first poll |
| PidCascade.PollOutput | include/nit/embedded/math/control.hpp:192-199 | every poll's output, if a number, is inside the output bounds |
| PidCascade.PollAndLimit | test/test_math_control.cpp:252-258 | controller and limiter wired together do one step of the cascade |
| PidCascade.CascadeStaysInRange | include/nit/embedded/math/control.hpp:145-200 | the limited output, while a number, never leaves the controller's output range once inside, for every run |
| PidCascade.CascadeNumber | include/nit/embedded/math/control.hpp:145-200 | over every run the limited output is a number if and only if no poll so far has divided zero by zero |
| PidCascade.CascadeTurnsNaN | include/nit/embedded/math/control.hpp:145-200 | one poll with the clock standing still makes the limited output NaN, whatever follows |
| PidCascade.CascadeStalls | include/nit/embedded/math/control.hpp:393-398 | while the controller's output does not change the limiter stands still |
| PidCascade.CascadeArrives | include/nit/embedded/math/control.hpp:393-398 | when the controller's output changes to u and stays, for any number of polls the limited output is u if and only if the allowance of that one input covers the distance |
| PidCascade.CascadeFallsShort | include/nit/embedded/math/control.hpp:393-398 | a saturated run of any length that stays short of the target |
| ThreadPool.Pool.constructor | include/nit/embedded/core/thread_pool.hpp:30-35 | the pool starts empty with its workers at the loop test |
| ThreadPool.Pool.SubmitTask | include/nit/embedded/core/thread_pool.hpp:19-23 | a submission is one step that appends to the queue |
| ThreadPool.Pool.SetStop | include/nit/embedded/core/thread_pool.hpp:37-38 | setting the flag is one step that changes nothing else |
| ThreadPool.Pool.TestLoop | include/nit/embedded/core/thread_pool.hpp:48-48 | a worker goes on to the wait or returns, as the flag says |
| ThreadPool.Pool.WakeUp | include/nit/embedded/core/thread_pool.hpp:52-61 | a worker takes the front of the queue, returns, or keeps waiting |
| ThreadPool.Pool.FinishTask | include/nit/embedded/core/thread_pool.hpp:63-72 | a worker that has called its task is back at the loop test; an empty function is not called |
| ThreadPool.Pool.Schedule | include/nit/embedded/core/thread_pool.hpp:47-73 | any schedule of these steps ends in the state the theorems are about |
| ThreadPool.FirstInFirstOut | include/nit/embedded/core/thread_pool.hpp:19-61 | in every interleaving the tasks submitted are the tasks taken followed by the queue, so the i-th taken is the i-th submitted and no task has two takers |
| ThreadPool.CallsWhatItTakes | include/nit/embedded/core/thread_pool.hpp:47-73 | in every interleaving each worker calls exactly the tasks it took, once and in order, with at most one under way |
| ThreadPool.WorkerServesQueue | include/nit/embedded/core/thread_pool.hpp:47-73 | with the flag clear a worker alone takes and calls the whole queue in order, empty functions not called, and nothing else changes |
| ThreadPool.TakesAfterStop | include/nit/embedded/core/thread_pool.hpp:47-61 | after the flag is set only workers already waiting take a task, at most one each, whatever is still submitted |
| ThreadPool.ShutdownDrains | include/nit/embedded/core/thread_pool.hpp:37-61 | when nothing is submitted after the flag is set, the queue is empty once the workers are joined if and only if no more tasks were queued than workers waited, and otherwise holds exactly the tasks in excess |
| ThreadPool.ShutdownLeavesTask | include/nit/embedded/core/thread_pool.hpp:37-61 | a run of one worker and one task that leaves the task behind |
| ThreadPool.AfterShutdown | include/nit/embedded/core/thread_pool.hpp:37-42 | once the workers are joined nothing is taken or called any more, and everything taken has been called |
| Signals.Signal.ConnectSlot | include/nit/embedded/core/signal.hpp:19-22 | a connection appends its slot |
| Signals.Signal.DisconnectAt | include/nit/embedded/core/signal.hpp:24-27 | a disconnection removes that connection and keeps the order of the others |
| Signals.Signal.Clear | include/nit/embedded/core/signal.hpp:34-37 | all connections are removed |
| Signals.Signal.Emit | include/nit/embedded/core/signal.hpp:39-54 | the loop appends one task per connected slot, in order, to the pool's queue, and nothing else |
| Signals.EmitIsUninterrupted | include/nit/embedded/core/signal.hpp:39-54 | the interleaved steps of one emission, taken alone, submit what the method submits |
| Signals.FanOutFaithful | include/nit/embedded/core/signal.hpp:39-54 | in every interleaving of signals, submitters and workers a signal has submitted one task per sink of each emission, in connection order, emission after emission |
| Signals.SinksAreConnections | include/nit/embedded/core/signal.hpp:19-37 | in every interleaving the sinks of a signal are exactly the connections made and not disconnected since, each with the slot it was given, in the order made |
| Signals.EmissionsBegan | include/nit/embedded/core/signal.hpp:39-54 | in every interleaving each emission has the arguments and the sinks of the moment at which it took the mutex |
| Signals.EmissionsCounted | include/nit/embedded/core/signal.hpp:39-54 | there are as many emissions as calls that found the mutex free |
| Signals.TakenInEmissionOrder | include/nit/embedded/core/signal.hpp:39-54 | the workers take a signal's tasks in that same order |
| Signals.PoolOfSystem | include/nit/embedded/core/signal.hpp:39-54 | the pool of a system with signals runs as a pool of its own, so every theorem about pool runs holds for it |
| Signals.SystemCallsAndDrains | include/nit/embedded/core/thread_pool.hpp:37-73 | in every interleaving with signals each worker calls what it takes, and a shutdown drains exactly when no more tasks are queued than workers wait |
| Bitfield.SetBits | include/nit/embedded/utils/bitfield.h:16-20 | for every msb and lsb, setting writes the value's low bits into the field and no other bit |
| Bitfield.GetBits | include/nit/embedded/utils/bitfield.h:14-14 | getting reads the field right-aligned with zeros above |
| Bitfield.GetOfSet | include/nit/embedded/utils/bitfield.h:10-20 | what is set is got, up to the width of the field, over every base |
| LegacyPacket.Packet.constructor | include/nit/embedded/networking/tcp/protocol_legacy.hpp:31-36 | the packet holds the parsed fields |
| LegacyPacket.Packet.EncodeTo | include/nit/embedded/networking/tcp/protocol_legacy.hpp:40-47 | the word of the packet |
| LegacyPacket.Packet.RouteIdGet | include/nit/embedded/networking/tcp/protocol_legacy.hpp:20-24 | endpoint and group combined in 16 bits |
| LegacyPacket.Packet.RouteIdSet | include/nit/embedded/networking/tcp/protocol_legacy.hpp:26-29 | group and endpoint from the identifier, the other fields kept |
| LegacyPacket.EncodeOfParse | include/nit/embedded/networking/tcp/protocol_legacy.hpp:31-47 | encoding a parsed word gives it back with bits 12 to 15 cleared, for every 32-bit word |
| LegacyPacket.ParseOfEncode | include/nit/embedded/networking/tcp/protocol_legacy.hpp:31-47 | parsing an encoded packet reduces each field to its width, and returns the packet if and only if its fields fit |
| LegacyPacket.RouteRoundTrip | include/nit/embedded/networking/tcp/protocol_legacy.hpp:20-29 | getting undoes setting for all 16-bit identifiers |
| LegacyPacket.RouteOverWire | include/nit/embedded/networking/tcp/protocol_legacy.hpp:20-47 | an identifier survives the wire if and only if bit 7 and bits 12 to 15 are clear |

## Left out

- Floating-point rounding, and infinities and NaN other than the controller's quotient by a zero interval; the
  width of moments that belong to no non-negative image.
- Overflow of the loop's signed counters.
- Words that the loop only publishes: the region width, the error word, the metadata, the mode-change flag, the
  digital outputs, the LEDs; also semaphores, sleeps, logs and the temperature conversion.
- Registers that change in the middle of a tick: each is sampled once per tick.
- The offset-update register as shared memory: an update is an event of the tick that raises it.
- Calibration.CalibrationError: assumes that the integer products and the result fit their machine types, as the
  code needs them to.
- Calibration.SensorCorrection.Reset: requires the arrays to reach as far as the loop writes, because a write
  outside them has no meaning in C++; Calibration.ResetInBounds says when frame-sized arrays do.
- TrackTime.TrackTimeRegisters.Write: values are the 16 bits that a packet carries.
- The calibration handshake, the acquisition of the two frames and the configuration file.
- The setup, reset and gain setters of the controller, and its unguarded output-bound setters: gains and bounds
  are values there.
- Disconnecting by slot value (signal.hpp:29-32): it compares function objects, which C++ does not define.
- Liveness of the pool and of its shutdown, and what a task does while it runs other than submitting tasks.
- The register drivers, the route table, the network, the mock framebuffer and the D-Bus and XML interfaces.
