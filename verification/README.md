# Verified model of the DASH sensor HAL

A Dafny model of the stateful parts of the sensor HAL, with proofs of what they keep over every run. Check it with
`dafny verify dfyconfig.toml`.

## What is modelled

**Magnetometer calibration** (`libs/libakm/oss`). Exact real arithmetic. Distances and radii are squared: the code only
compares non-negative quantities, so squaring both sides is faithful. A loop over the three components of a vector is
one vector operation. An empty slot holds the largest single-precision number, as in the code.

- `Vectors`, `Buffers`: vectors and the in-place buffer operations.
- `SphereFit`: the sphere through four points by elimination without pivoting.
- `ExtremalPoints`: the greedy choice of four points. The output array is not initialised by its caller, so what it
  held before is an argument.
- `Calibration`, `CalibrationRuns`, `CalibrationBias`, `CalibrationDecisions`: the calibration object, its runs, two runs
  side by side, and exactly when a run accepts a fit and reports success.
- `Measurement`, `MeasurementRuns`: offset correction, averaging and status, and runs that mix magnetometer samples,
  accelerometer samples and requests to recalibrate.

**Sensor multiplexer** (`sensors_wrapper.c` and its neighbours). The value a driver returns is a function of the driver
and of the number of calls made to it so far, which covers every behaviour of a driver; the calls made to it are
recorded. Each operation runs under the wrapper mutex and is one step.

- `Multiplexer`, `Wrapper`: the operations as functions of the state, and the loops that carry them out.
- `MultiplexerRuns`, `MultiplexerHistory`, `MultiplexerAnswers`: what every run keeps, what the drivers are told in terms
  of the events of a run, and what calls return and deliver.
- `AndroidSensors`, `AndroidHistory`: several Android sensors behind one client of the multiplexer, and their runs in
  terms of the calls made for each handle.
- `SelectThread`: any number of select objects with their threads and mutexes under the one wrapper mutex, and their
  controllers, as interleaved steps.

**Smaller stateful pieces.** `Registry` (the sensor list iterated while it shrinks), `ConfigText` and `ConfigStore` (the
configuration file and its entries), `InputCache` (devices on a circular doubly linked list), `Pressure` (a moving
average on a ring), `CText` (C string functions).

## Results that are not what the code's documentation suggests

- Points in general position can be refused by the fit (`SphereFit.CornerIsRefused`); the exact condition is
  `SphereFit.FitFailsExactlyWhen`, and it depends on the order of the points.
- A planar window uses points left over on the stack, and such a fit can be accepted: four equal samples after start-up
  are enough (`CalibrationRuns.LeftoverPointsCanBeAccepted`); the choice is determined by the samples exactly when the window is
  not planar (`ExtremalPoints.ChoiceIsDeterminedIffSpatial`).
- Closing a client sends no new rate, so a driver can be left running too fast
  (`MultiplexerRuns.CloseLeavesDriverTooFast`, exact condition `MultiplexerRuns.CloseKeepsExactIff`). Closing a group of
  Android sensors does no such harm, because it is only done when no sensor of the group is enabled.
- A delay requested for a disabled sensor is lost when the sensor is enabled
  (`AndroidSensors.RequestBeforeEnableIsLost`, exact condition `AndroidSensors.EnableKeepsRateIff`).
- Iterating the registry is right for every callback exactly when entries with the same API are next to each other and
  identical (`Registry.IterationCorrectIffClustered`): registering one sensor twice does no harm
  (`Registry.SameSensorTwice`), two sensors with one API do (`Registry.SecondRejectedFirstRemoved`).
- A stored key hides later keys that it is a prefix of (`ConfigStore.ValueIsFoundIffNotHidden`, example
  `ConfigStore.AxisHidesAxisX`), and an array read writes one slot more than asked for before it fails
  (`ConfigStore.ParseArray`).
- A malformed line behind the first entry frees the list and keeps the pointer to it (`ConfigStore.Store.Read`).
- With two devices of the same name the cache answers differently from a scan
  (`InputCache.SecondQueryDiffers`, exact condition `InputCache.CachedAnswerIsFreshIffUnique`).
- A pressure report before the first sample since activation divides by zero (`Pressure.TrapsIffTooEarly`).

## Model

| member | source | states |
|---|---|---|
| SphereFit.From4Points2Sphere | libs/libakm/oss/akfs_aoc.c:45-117 | the in-place computation returns what the elimination on the difference rows yields, whose meaning the lemmas below give |
| SphereFit.SolveByElimination | libs/libakm/oss/akfs_aoc.c:79-112 | the straight-line part agrees with the elimination |
| SphereFit.FirstDivisor | libs/libakm/oss/akfs_aoc.c:79-92 | the first divisor is the first pivot times the 3 by 3 determinant of the differences |
| SphereFit.EliminationSolves | libs/libakm/oss/akfs_aoc.c:79-112 | a result solves all three linear equations, and the determinant is not zero |
| SphereFit.EquidistantIffSolves | libs/libakm/oss/akfs_aoc.c:67-77 | being equidistant from the four points is the same as solving the linear system |
| SphereFit.EquidistantCentreIsUnique | libs/libakm/oss/akfs_aoc.c:67-112 | four points that are not coplanar have at most one equidistant centre |
| SphereFit.FitIsTheSphere | libs/libakm/oss/akfs_aoc.c:67-116 | on success the four points are not coplanar, all are at the reported radius from the centre, and the centre is the only equidistant point |
| SphereFit.FitFailsExactlyWhen | libs/libakm/oss/akfs_aoc.c:87-110 | failure if and only if a pivot, a minor, or the pivot times the determinant is below the threshold |
| SphereFit.SharedFirstCoordinateIsRefused | libs/libakm/oss/akfs_aoc.c:105-110 | points 0 and 3 with the same x are refused, whatever the other two are |
| SphereFit.CornerIsRefused | libs/libakm/oss/akfs_aoc.c:87-110 | some four points on a sphere, not coplanar, are refused |
| SphereFit.SwappedCornerIsFitted | libs/libakm/oss/akfs_aoc.c:87-116 | the same four points in another order are fitted |
| SphereFit.FitOfShifted | libs/libakm/oss/akfs_aoc.c:67-116 | translating the points translates the centre and changes neither success nor radius |
| SphereFit.ChordAtMostDiameter | libs/libakm/oss/akfs_aoc.c:293-302 | two points of a sphere are at most a diameter apart |
| ExtremalPoints.Peak | libs/libakm/oss/akfs_aoc.c:174-183 | a running maximum with a strict comparison finds the first largest positive key |
| ExtremalPoints.Get4points | libs/libakm/oss/akfs_aoc.c:156-225 | the three passes pick the three greedy maxima; an output without candidate keeps its old contents |
| ExtremalPoints.ChooseThird | libs/libakm/oss/akfs_aoc.c:185-209 | the second pass, with the difference vectors and the normal it leaves behind |
| ExtremalPoints.ChosenPointsAreMaximal | libs/libakm/oss/akfs_aoc.c:173-224 | farthest sample, then largest area with that edge, then largest volume with that triangle |
| ExtremalPoints.SpatialWindowGivesTetrahedron | libs/libakm/oss/akfs_aoc.c:156-225 | a window that is not planar yields four samples of its own that span a tetrahedron |
| ExtremalPoints.PlanarWindowKeepsStalePoint | libs/libakm/oss/akfs_aoc.c:211-224 | a planar window leaves the last output unassigned |
| ExtremalPoints.PlanarWindowHasNormal | libs/libakm/oss/akfs_aoc.c:156-225 | all samples of a planar window are orthogonal to one direction |
| ExtremalPoints.ChoiceIsDeterminedIffSpatial | libs/libakm/oss/akfs_aoc.c:156-225 | the choice does not depend on the uninitialised output if and only if the window is not planar |
| ExtremalPoints.FourPointsOfShifted | libs/libakm/oss/akfs_aoc.c:156-225 | translating window and old output translates the choice |
| Buffers.InitBuffer | libs/libakm/oss/akfs_device.c:26-45 | fills a prefix with the sentinel, or refuses an empty size |
| Buffers.BufShift | libs/libakm/oss/akfs_device.c:54-71 | shifts in place towards the end and keeps the freed front, or refuses an impossible shift |
| Buffers.Push | libs/libakm/oss/akfs_aoc.c:264-269 | the shift loop and store push a new entry in and the oldest out |
| Calibration.CheckDistances | libs/libakm/oss/akfs_aoc.c:293-302 | the double loop decides whether all pairs are a radius and the threshold apart |
| Calibration.MeanVar | libs/libakm/oss/akfs_aoc.c:122-151 | midpoint and extent of the bounding box |
| Calibration.BoxContains | libs/libakm/oss/akfs_aoc.c:134-146 | every vector lies between the computed minimum and maximum |
| Calibration.OffsetCalibrator.CountSamples | libs/libakm/oss/akfs_aoc.c:271-279 | the backward scan finds the number of leading slots in use |
| Calibration.OffsetCalibrator.Init | libs/libakm/oss/akfs_aoc.c:340-358 | both buffers become empty and the radius zero |
| Calibration.OffsetCalibrator.Calibrate | libs/libakm/oss/akfs_aoc.c:247-335 | state, offset and return value after a call, on every path, are those of the step the runs are made of |
| CalibrationRuns.WindowsHoldMostRecent | libs/libakm/oss/akfs_aoc.c:264-322 | in every reachable state both buffers hold exactly the most recent entries, newest first, then only empty slots |
| CalibrationRuns.SamplesUsedForFit | libs/libakm/oss/akfs_aoc.c:271-286 | a fit uses as many samples as the window holds, once there are four |
| CalibrationRuns.AcceptedSphere | libs/libakm/oss/akfs_aoc.c:285-302 | an accepted centre has the four chosen points at the stored radius, which is at least 5 |
| CalibrationRuns.AcceptedCenterIsOfSamplesIff | libs/libakm/oss/akfs_aoc.c:285-310 | an accepted centre is the one point equidistant from four samples of the window if and only if the window is not planar |
| CalibrationRuns.LeftoverPointsCanBeAccepted | libs/libakm/oss/akfs_aoc.c:259-302 | from any initial offset, three equal samples reach a state in which a fourth one is accepted through points left over on the stack, with a planar window |
| CalibrationRuns.SuccessMeansAgreement | libs/libakm/oss/akfs_aoc.c:304-334 | success implies seven samples, radius at least 5, and the last four centres within 0.075 of the radius of the offset on every axis |
| CalibrationRuns.FailureKeepsOffset | libs/libakm/oss/akfs_aoc.c:281-330 | every other return leaves the offset as it was |
| CalibrationBias.AcceptedCenterInRange | libs/libakm/oss/akfs_aoc.c:293-302 | an accepted centre is bounded by the samples, so it cannot look like an empty slot |
| CalibrationBias.CentersInRange | libs/libakm/oss/akfs_aoc.c:264-320 | the same for every centre of every run |
| CalibrationBias.BiasInvariance | libs/libakm/oss/akfs_aoc.c:156-335 | two runs whose inputs differ by a constant vector decide alike, with equal radii, and their centres and offsets differ by that vector |
| CalibrationDecisions.CenterIsAddedIff | libs/libakm/oss/akfs_aoc.c:263-317 | in every run a sample adds a centre if and only if the window then holds four samples and the four points chosen lie on a sphere that the fit finds and are pairwise a radius and 10 apart; only then is the window cut to ten samples |
| CalibrationDecisions.SuccessIff | libs/libakm/oss/akfs_aoc.c:304-334 | success is reported if and only if the sample added a centre and every two of the last four centres differ by less than 0.15 of the radius on every axis; the offset is then half the sum of their extremes, else it stays |
| CalibrationDecisions.AgreeIffPairsAreClose | libs/libakm/oss/akfs_aoc.c:122-151 | the box of the centres is narrow enough exactly when every two centres are close |
| Measurement.VbNorm | libs/libakm/oss/akfs_vnorm.c:33-75 | offset and sensitivity applied to the newest entries in place, with all refusals |
| Measurement.NormalizedScales | libs/libakm/oss/akfs_vnorm.c:68-72 | the result times the sensitivity is the difference to the offset times the target |
| Measurement.LiveStopsAtSentinel | libs/libakm/oss/akfs_vnorm.c:103-108 | averaging stops at the first entry with a component equal to the sentinel |
| Measurement.VbAve | libs/libakm/oss/akfs_vnorm.c:85-126 | the mean of the entries before the first missing one |
| Measurement.Compass.InitMeasure | libs/libakm/oss/akfs_measure.c:41-55 | buffers and calibration restart, outputs and status stay |
| Measurement.Compass.SetMagneticField | libs/libakm/oss/akfs_measure.c:58-138 | the whole new state after a magnetometer sample, including the shifted accelerometer buffer |
| Measurement.Compass.SetAccelerometer | libs/libakm/oss/akfs_measure.c:141-183 | the whole new state after an accelerometer sample |
| Measurement.Compass.ForceReCalibration | libs/libakm/oss/akl_apis.c:450-453 | only the status is reset |
| MeasurementRuns.PipelineFollowsSamples | libs/libakm/oss/akfs_measure.c:58-138 | in every mixed run the calibration sees exactly the magnetometer samples, and the buffer holds their corrected values |
| MeasurementRuns.OffsetInRange | libs/libakm/oss/akfs_aoc.c:324-332 | offsets stay in range, so no corrected sample looks like an empty slot |
| MeasurementRuns.VectorIsMeanOfCorrected | libs/libakm/oss/akfs_measure.c:92-121 | the vector is the mean of the last eight or fewer samples, each minus the offset in force when it was processed, and lies in their box |
| MeasurementRuns.SumOfConcat | libs/libakm/oss/akfs_vnorm.c:98-113 | the sum over two parts is the sum of their sums |
| MeasurementRuns.MeanIsShare | libs/libakm/oss/akfs_vnorm.c:115-123 | the mean times the number of entries is their sum |
| MeasurementRuns.VectorMoves | libs/libakm/oss/akfs_measure.c:92-121 | from the ninth sample on, eight times the move of the vector is the corrected newest sample minus the corrected one eight before |
| MeasurementRuns.AccelerationIsMean | libs/libakm/oss/akfs_measure.c:141-183 | after accelerometer samples only, their vector is the mean of the last eight or fewer |
| MeasurementRuns.StatusHistory | libs/libakm/oss/akfs_measure.c:123-135 | the status is 3 exactly when a sample confirmed it and nothing since then withdrew it |
| MeasurementRuns.StatusOfRun | libs/libakm/oss/akfs_measure.c:123-135 | after a restart with status 0 it is 3 exactly when a calibration succeeded with a vector of at most 70 and since then no vector was longer and no recalibration requested |
| MeasurementRuns.BiasIsInvisible | libs/libakm/oss/akfs_measure.c:58-138 | a bias on samples, stored offset and leftover points moves the offset and is invisible in buffer, vector and status |
| Multiplexer.MinRate | sensors_wrapper.c:79-91 | the least non-negative request, or NO_RATE when there is none |
| Multiplexer.CountIsPositiveIffHas | sensors_wrapper.c:54-65 | the count of a status bit is positive exactly when some slot carries it |
| Wrapper.WrapperList.GetRate | sensors_wrapper.c:79-91 | the loop that relies on NO_RATE being the largest unsigned number computes the least request |
| Wrapper.WrapperList.GetStatus | sensors_wrapper.c:54-65 | the loop counts the slots with a bit |
| Wrapper.WrapperList.Register | sensors_wrapper.c:104-134 | a driver with a clear table is appended, unless the list is full |
| Wrapper.WrapperList.Data | sensors_wrapper.c:138-159 | data goes to the active clients of the first driver with that sensor, in slot order |
| Wrapper.WrapperList.Init | sensors_wrapper.c:163-213 | new state and return value; 0 exactly when the call found a driver for the last wanted type; a client that has all its matches is left as it is |
| Wrapper.WrapperList.ScanForMatches | sensors_wrapper.c:170-209 | the loop restarted by goto is one scan per wanted type, and terminates |
| Wrapper.WrapperList.Activate | sensors_wrapper.c:217-256 | new state and return value |
| Wrapper.WrapperList.SetDelay | sensors_wrapper.c:260-283 | new state and return value |
| Wrapper.WrapperList.Close | sensors_wrapper.c:288-307 | new state |
| MultiplexerRuns.PickIsFirstUsable | sensors_wrapper.c:171-187 | the first driver of the type that is initialised or initialises now; exactly the failing ones before it were tried, once |
| MultiplexerRuns.ActivationAfterActivate | sensors_wrapper.c:244-251 | the last request is enable iff a slot is active, and enable is only issued when none was |
| MultiplexerRuns.RateAfterActivate | sensors_wrapper.c:232-242 | withdrawing a client keeps the driver fast enough, and exact if it was |
| MultiplexerRuns.RateAfterDelay | sensors_wrapper.c:273-279 | a new request keeps the driver fast enough, and exact if it was |
| MultiplexerRuns.CloseKeepsRateExactIff | sensors_wrapper.c:300-304 | closing a slot keeps the driver's rate exact if and only if, before the call, no other slot asks for a rate or another one asks for the fastest |
| MultiplexerRuns.CloseLeavesDriverTooFast | sensors_wrapper.c:300-304 | a driver with requests of 5 and 9 keeps running at 5 after the client asking for 5 is closed |
| MultiplexerRuns.CloseKeepsExactIff | sensors_wrapper.c:288-307 | closing a client keeps all drivers exact if and only if on each of them no other client asks for a rate or another one asks for the fastest |
| MultiplexerRuns.QuietCloseKeepsExact | sensors_wrapper.c:288-307 | closing a client that asks for no rate keeps all drivers exact |
| MultiplexerRuns.OperationKeepsDriver | sensors_wrapper.c:217-307 | every operation keeps the driver invariant; all but close keep the rate exact |
| MultiplexerRuns.InitKeepsInv | sensors_wrapper.c:163-213 | init keeps ownership, initialises each driver once, and returns 0 exactly when the call completed the matches |
| MultiplexerRuns.RunKeepsInv | sensors_wrapper.c:104-307 | in every run: slots owned by exactly one match, initialised once iff in use, enabled iff a client is active, never slower than asked, and exactly as asked without close |
| MultiplexerHistory.SlotHoldsAsk | sensors_wrapper.c:163-307 | in every run a slot holds what the events asked through it since its client was attached: active, rate, closed |
| MultiplexerHistory.DriverFollowsEvents | sensors_wrapper.c:104-307 | in every run a driver was last enabled iff the events ask for it, and last told a rate not slower than any asked for; one that is asked for when nothing was closed |
| MultiplexerHistory.CloseIsCalledIff | sensors_wrapper.c:288-307 | an event calls a driver's close if and only if it closes an attached client and by then every attached client was closed |
| MultiplexerHistory.RateIsSentOnChange | sensors_wrapper.c:232-283 | a rate is sent exactly when the least one asked for changes; disabling does not withdraw the last one, closing sends none |
| MultiplexerHistory.OperateLeavesOthers | sensors_wrapper.c:217-307 | drivers the client is not attached to are neither changed nor called |
| MultiplexerHistory.RegisterAppends | sensors_wrapper.c:104-134 | a driver is appended with four clear slots while there are fewer than sixteen |
| MultiplexerAnswers.LastCallIsReturned | sensors_wrapper.c:217-283 | the value returned is that of the last driver called |
| MultiplexerAnswers.NoCallReturnsZero | sensors_wrapper.c:217-283 | without any driver call the value returned is 0 |
| MultiplexerAnswers.DataGoesInSlotOrder | sensors_wrapper.c:152-158 | data goes once through each slot with an active listening client, in slot order |
| MultiplexerAnswers.InitIsSequenceOfRounds | sensors_wrapper.c:163-213 | init is a sequence of rounds: each attaches the next slot of the first usable driver of the next type, searched from the first driver on, until all types are matched or no driver is usable |
| MultiplexerRuns.OperateChangesOwnSlots | sensors_wrapper.c:228-306 | an operation changes exactly the slots of its client |
| MultiplexerRuns.InitAddsQuietSlots | sensors_wrapper.c:188-199 | init leaves slots in use alone and adds slots that ask for nothing |
| MultiplexerRuns.ReceiversAreActive | sensors_wrapper.c:152-158 | a client receives data from a driver exactly when it listens and has an active slot there |
| MultiplexerRuns.NoDataWhileDisabled | sensors_wrapper.c:138-256 | in every run, a disabled client receives no data until it is enabled again |
| AndroidSensors.Fastest | sensors/wrappers/ak0991xna_sensors.c:260-268 | the loop's minimum is a request of an enabled sensor and at most every such request |
| AndroidSensors.SensorGroup.Init | sensors/wrappers/ak0991xna_sensors.c:158-177 | the client is attached on the first call only, which returns what init of the wrapper returns; later calls repeat that value |
| AndroidSensors.SensorGroup.SetDelay | sensors/wrappers/ak0991xna_sensors.c:234-271 | the request is stored, the group's minimum is passed on and the value of that call returned; an unknown handle changes nothing and returns -1 |
| AndroidSensors.SensorGroup.Activate | sensors/wrappers/ak0991xna_sensors.c:179-232 | mask, request, client and return value after enabling or disabling one sensor |
| AndroidSensors.SensorGroup.Close | sensors/wrappers/ak0991xna_sensors.c:273-283 | the client is closed when no sensor of the group is enabled, else nothing happens |
| AndroidSensors.CloseOfIdleGroup | sensors/wrappers/ak0991xna_sensors.c:273-283 | closing the client of a group without enabled sensors keeps all drivers exact |
| AndroidSensors.StepKeepsSystemInv | sensors/wrappers/ak0991xna_sensors.c:179-283 | the client is active iff the mask is not empty, and its rate is the minimum over enabled sensors |
| AndroidSensors.SystemRunKeepsInv | sensors/wrappers/ak0991xna_sensors.c:158-283 | the same in every run with any number of groups, closing included |
| AndroidSensors.DriverServesFastestSensor | sensors/wrappers/ak0991xna_sensors.c:179-283 | in every run, closing included, a driver runs at the smallest delay of all enabled sensors of all its groups, and is enabled iff there is one |
| AndroidHistory.HandlesAreTwoSensors | sensors/wrappers/ak0991xna_sensors.c:191-203 | exactly the handles 3 and 14 are known, as two sensors |
| AndroidHistory.GroupTracksSteps | sensors/wrappers/ak0991xna_sensors.c:179-271 | in every run enable bit and request of each handle are those of the calls made for that handle |
| AndroidHistory.ClientActiveIffHandleOn | sensors/wrappers/ak0991xna_sensors.c:205-231 | in every run a client is active exactly while one of its two handles is enabled |
| AndroidHistory.DriverServesHandles | sensors/wrappers/ak0991xna_sensors.c:179-283 | in every run a driver runs at the smallest delay last requested for any enabled handle of its groups, and is enabled exactly while there is one |
| AndroidSensors.EnableKeepsRateIff | sensors/wrappers/ak0991xna_sensors.c:205-214 | after enabling, a slot of the client asks for the group's fastest request if and only if the sensor was enabled already, has no request stored, or none faster than the others |
| AndroidSensors.RequestBeforeEnableIsLost | sensors/wrappers/ak0991xna_sensors.c:205-231 | a delay requested before enabling does not reach the client |
| SelectThread.StepKeepsDiscipline | sensors_select.c:50-72 | every step of every thread, on any number of select objects, keeps the lock order and the locks each operation needs |
| SelectThread.NoMutexDeadlock | sensors_select.c:116-124 | a thread waiting for a held mutex never waits in a cycle: some holder can step |
| SelectThread.StepKeepsDescriptors | sensors_select.c:116-124 | the descriptors stored in all objects and those not stored yet are open and distinct |
| SelectThread.CallbackDescriptorIsStable | sensors_select.c:66-71 | the callback runs with both mutexes, on the descriptor waited on, which no other thread can change or close |
| SelectThread.RunKeepsInv | sensors_select.c:50-124 | all of this in every interleaving of any number of select threads and of threads that enable, disable, set delays, initialise and close clients, or call drivers directly |
| SelectThread.NoDeliveryAfterDisable | sensors_wrapper.c:217-256 | after a call that disabled a client on a driver has returned, the client gets no data from the driver in any interleaving until a call enables it there |
| SelectThread.DeliversIffUnchanged | sensors_select.c:66-71 | a thread delivers next if and only if it just found the descriptor unchanged |
| SelectThread.RunningWorkerDelivers | sensors_select.c:50-72 | a running worker with free mutexes, a valid descriptor and data gets by its own steps to delivering to exactly the clients active on its driver |
| SelectThread.SuspendedWorkerSleeps | sensors_worker.c:38-60 | a suspended worker does not enter the callback |
| SelectThread.DriverIsCalledIff | sensors_wrapper.c:244-251 | updating a slot calls the driver iff no client was active before an enable, or no other is at a disable |
| Registry.SensorList.Register | sensors_list.c:35-48 | both arrays grow together, or the call is refused |
| Registry.SensorList.Deregister | sensors_list.c:50-67 | the first entry with the API is shifted out of both arrays |
| Registry.SensorList.GetApiFromHandle | sensors_list.c:76-83 | the API of the first entry with the handle |
| Registry.SensorList.ForEachApi | sensors_list.c:85-95 | for clustered entries, in particular distinct APIs, every one is called once in order and exactly the accepted entries stay, with their descriptors |
| Registry.IterationOfClustered | sensors_list.c:85-95 | for clustered entries the iteration with a retreating index is a filter, from any position |
| Registry.IterationCorrectIffClustered | sensors_list.c:35-95 | iteration is right for every callback if and only if entries with the same API are next to each other and identical |
| Registry.SameSensorTwice | sensors_list.c:35-95 | one sensor registered twice is iterated correctly |
| Registry.SecondRejectedFirstRemoved | sensors_list.c:35-95 | of two sensors with one API, rejecting the second removes the first |
| Registry.AcceptedReturnedZero | sensors_list.c:85-95 | the entries kept are those whose call returned 0, in order |
| ConfigText.ScanOfLine | sensors_config.c:143-146 | scanning a documented line that fits recovers prefix, key and value |
| ConfigText.ScannedIsField | sensors_config.c:143-146 | whatever is scanned is a documented record at the start of the line |
| ConfigText.LinesOfConcat | sensors_config.c:130 | reading with the 64 character buffer splits a file of fitting lines into those lines |
| ConfigText.FileRoundTrip | sensors_config.c:130-157 | a file of documented entries with any separators, comments and blank lines is read back entry by entry, without a malformed line |
| ConfigText.MalformedIff | sensors_config.c:132-153 | a line is malformed iff it starts with neither a comment sign, a blank, the line end nor a documented record |
| ConfigText.LongLineIsCut | sensors_config.c:130 | a line of more than 63 characters is cut there and its rest read like a line |
| CText.AtoiReadsDecimal | sensors_config.c:90 | a decimal number with leading space and sign is read back, up to the first other character |
| ConfigStore.TokensAreRuns | sensors_config.c:88-96 | the tokens are exactly the longest runs without comma, in order |
| ConfigStore.StrTok | sensors_config.c:88-96 | one token, cut out of the value in place |
| ConfigStore.ParseArray | sensors_config.c:76-99 | the numbers of the non-empty tokens; success iff they fit; the stored value is unchanged on both exits; one slot more is written on failure |
| ConfigStore.ParseValue | sensors_config.c:58-109 | result for each of the three types, with the sizes refused |
| ConfigStore.Store.Insert | sensors_config.c:38-56 | the entry goes to the end of the list |
| ConfigStore.Store.Destroy | sensors_config.c:185-194 | exactly the entries of the list are freed, and the list is left as it is |
| ConfigStore.Store.Read | sensors_config.c:111-163 | the records of the file go to the end, in order; -1 exactly when a line is malformed; all entries are freed exactly when such a line comes after an entry, else none |
| ConfigStore.WellFormedFile | sensors_config.c:148-153 | a file without malformed lines frees nothing |
| ConfigStore.Store.Find | sensors_config.c:173-181 | the walk finds the first entry whose names are prefixes of those asked for |
| ConfigStore.Store.GetKey | sensors_config.c:170-183 | lookup and parsing together; the store is unchanged |
| ConfigStore.LookupYieldsFirstAnswer | sensors_config.c:130-183 | looking up names in a documented file yields the first entry with whose prefix and key the names start, compared character by character, and nothing if there is none |
| ConfigStore.ValueIsFoundIffNotHidden | sensors_config.c:130-183 | reading a documented file and asking for the names of an entry yields its value, whatever the values are, if and only if the names start with those of no earlier entry |
| ConfigStore.AxisHidesAxisX | sensors_config.c:130-183 | a two-line file in which the key axis hides the key axis_x |
| ConfigStore.AxisYIsFound | sensors_config.c:130-183 | a two-line file in which axis_y is found behind axis_x |
| InputCache.NodeAdd | sensors/sensor_util_list.h:30-36 | the new node goes right behind the head and the ring stays a ring |
| InputCache.NodeInit | sensors/sensor_util_list.h:25-28 | a node on its own is a ring |
| InputCache.Cache.LookupName | sensors_input_cache.c:52-68 | the walk around the ring ends and finds the first entry with the name |
| InputCache.Cache.LookupPath | sensors_input_cache.c:52-68 | the walk finds out whether a path is cached |
| InputCache.Cache.Get | sensors_input_cache.c:70-160 | new cache and answer of a call |
| InputCache.PathsStayDistinct | sensors_input_cache.c:115-119 | after any calls over any directories, cached paths are pairwise distinct |
| InputCache.CacheOfFixedDirectory | sensors_input_cache.c:90-150 | over a fixed directory the cache is empty or holds the whole directory, last file first |
| InputCache.CachedAnswerIsFreshIffUnique | sensors_input_cache.c:90-150 | the answer equals that of a fresh scan iff it is the first call or the name is unique |
| InputCache.SecondQueryDiffers | sensors_input_cache.c:90-150 | two devices of one name: the second query answers with the other device |
| InputCache.ScanAddsMissing | sensors_input_cache.c:90-150 | over any directory a scan puts exactly entries for uncached devices in front, after it every device's path is cached, and the answer is the first new entry of the name |
| InputCache.EntriesAreDevices | sensors_input_cache.c:90-140 | the entries are those of the readable, named event files, in order, with path, name and number |
| InputCache.MatchesIff | sensors_input_cache.c:58-64 | names are compared on 31 characters and paths on 27 |
| Pressure.Filter.Activate | sensors/lps331ap_input.c:90-115 | opening the device starts a new history |
| Pressure.Filter.AddSample | sensors/lps331ap_input.c:156-166 | the running sum stays the sum of the last sixteen or fewer samples |
| Pressure.Filter.Read | sensors/lps331ap_input.c:152-190 | the averages reported for a batch of events; the division by zero happens exactly when a report has no sample before it |
| Pressure.TrapsIffTooEarly | sensors/lps331ap_input.c:152-175 | a batch divides by zero if and only if there is no sample since activation before its first report |
| Pressure.ReportsOfBatch | sensors/lps331ap_input.c:152-190 | each report of a batch is the average at the time it was asked for |
| Pressure.QuotientTowardsZero | sensors/lps331ap_input.c:175 | the average is rounded towards zero |
| Pressure.AverageOfLastSixteen | sensors/lps331ap_input.c:158-175 | it is over the last sixteen samples, or all of them |
| Pressure.WindowMoves | sensors/lps331ap_input.c:158-166 | how the window and its sum move when a sample arrives |
| Pressure.AverageInWindow | sensors/lps331ap_input.c:175 | the truncated average lies between the least and the greatest sample of the window |
| Pressure.SumsFit | sensors/lps331ap_input.c:158-166 | with samples below 2^27 no intermediate sum overflows 32 bits |
| Pressure.LimitIsSharp | sensors/lps331ap_input.c:158-166 | sixteen samples of 2^27 overflow |

## Left out

- Rounding of single-precision arithmetic, and the overflow of a computed centre: reals are exact. The bias and mean
  results ask for samples below one eighth of the sentinel; the samples the library receives are 32-bit integers
  divided by 65536 (libs/libakm/oss/akl_apis.c:69-71).
- The average over accelerometer samples: a magnetometer sample shifts that buffer too, so in mixed runs it does not
  average distinct samples. The buffer is modelled as the code has it, and the average is only characterised for runs
  without magnetometer samples.
- `AKFS_Direction`, rotation and the fixed-point conversions: trigonometry or single expressions.
- Saving the offset when measurement stops: the code stores the value it started from.
- Wrapper.WrapperList.Init: requires a free slot on each driver the client is attached to, which the code does not
  check. For a repeated call of a client that has all its matches it requires an entry behind them in the match table
  (four matches fill it) and no driver of type zero, which is what that entry holds.
- Pointers in the wrapper: drivers and clients are numbered and their tables are sequences in the list, so two drivers
  sharing one table are not modelled. Status bits are a set of flags.
- AndroidSensors.StepKeepsSystemInv: asks that delays are non-negative and set only while the sensor is enabled, and
  that no sensor of a group is enabled when it is initialised for the first time; the two lemmas on enabling say what
  happens otherwise.
- The other composite sensors: same shape as the one modelled, or a weaker one.
- Whether a driver's close is called at most once: a composite can close its client twice.
- Destroying a select object, and whether a suspended worker wakes up: the worker releases its mutex between reading
  the mode and waiting.
- Descriptor numbers reused between the select call and the recheck: the recheck compares numbers, and so does the
  model.
- ConfigStore.Store.Read: requires that no record and no second malformed line follows after the list was freed, because
  the code then writes to a freed entry or frees one twice.
- Failing allocations in the configuration store and the input cache.
- The threads that close descriptors in the input cache, and the limit of one hundred of them.
- Numbers in the configuration that do not fit an int.
- What a processor does on the division by zero in a pressure report: the modelled batch ends there.
