# Verification of the house controller

A Dafny model of the parts of the house controller that are easy to get wrong, with proofs
about every run of them: the host daemon (`bytd`), the real-time unit of the BeagleBone
(`pru`), the AVR nodes on the CAN bus (`avr/fw`), their configuration tool
(`script/deploy/bb/avrcanconf`) and the firmware of the heat-recovery unit
(`rekuperacia_fw`).

`dafny verify dfyconfig.toml` checks everything.

| module | what it models |
|---|---|
| `Crc8`, `Folds` | the 8-bit CRC as a table, as a bit loop and in two MSB-first forms, over messages of any length |
| `OwBus`, `PruTriplet`, `RomSearch` | the 1-Wire ROM search of the host over a wired-AND bus, each of its triplets run by the polled machine of the PRU |
| `OpenTherm`, `OpenThermAnswers`, `OpenThermBound`, `OpenThermForgets`, `PruTimer` | the polled bi-phase modem, its 32-bit timer, two modems on one line, and a request from its first bit to its answer |
| `SlowPwm` | the deadline queue of the software PWM and the byte it shares with two switches |
| `CanLayout`, `CanBuilder`, `CanHost`, `CanNode`, `CanImage`, `CanConfig`, `CanRuns`, `CanPins`, `CanCases` | allocation of the CAN process image, the coalescing sender of the host, the slices and pins of the node, and both ends together |
| `Valve` | homing and moving of the four-way valve against a ring with an absolute mark |
| `OwEngine`, `OwMeasure`, `OwSensors`, `OwRounds` | the AVR node's interrupt-driven 1-Wire engine, the measurement on top of it, and sensors on its line |
| `RekuRx`, `RekuFilter`, `RekuHost` | the receiver and the temperature filter of the heat-recovery unit, and the host's commands to it |
| `Heating`, `HeatingLaw` | the heating controller and its valves, and its control law from temperatures and setpoints |

Where the source changes fields in place, a class has those fields and its methods equal a
step function on their value (`View()`); the results are about runs of the step functions.
Time, line levels, thread interleavings and the order of interrupts and polls are inputs,
so every result holds for all of them. Bits of a byte or word are sequences of booleans,
lowest bit first; only the CRCs use bit vectors.

`Wrappers` holds what several modules share: options and results.

Seven results differ from what one would first expect:

* The OpenTherm receiver gives up an erroneous frame 150 ms after its start only while the
  32-bit timer has not wrapped since then (21.4 s). `OpenTherm.RecoveryPoll` says exactly
  when a poll ends the error state, `OpenTherm.RecoveryEnds` is the guarantee within one
  wrap, and `OpenThermForgets.RecoveryForgets` is a run in which a line that chatters for
  one wrap and then stays high for 150 ms is still not given up.
* A valve move can succeed from a wrong believed position, and then ends at a wrong port.
  Unless a wait or deadline runs out, it succeeds exactly when on each leg of the path the
  absolute mark lies where it would for the believed position (`Valve.Ventil4w.Move`), and
  reaches the target exactly when the belief was right (`Valve.RightIffBelieved`).
  `Valve.WrongBeliefSucceeds` is an instance.
* The configuration tool accepts nodes that do not follow the host. For every configuration
  it accepts (`CanConfig.AcceptedLinks`), the process image of a node follows the host's
  items exactly when the upload completes and the node's filters keep the frames apart
  (`CanPins.ImageFollowsIff`), and its pins exactly when besides no two output objects share
  a pin (`CanPins.PinsFollowIff`). The upload completes when its numbers fit their fields
  and there are at most 12 message objects (`CanLayout.Uploads`): the node answers through
  object 12, and with its id overwritten the answer is lost. The filters compare eleven of
  the sixteen uploaded id bits; they keep frames apart when the received ids differ in
  eleven bits, and no other frame that agrees with one in these bits is long enough to
  reach its objects (`CanImage.RoutesApart`). `CanCases` has an accepted
  configuration for each failure: two switches on one pin (`SharedPinGoesLow`), the ids
  0x001 and 0x801 (`SameFilterFails`), and thirteen or more ids (`ManyObjects`).
* The AVR node gives up a 1-Wire write or read that has just completed well, exactly if the
  completing interrupt falls between the two looks at the response in one poll
  (`OwMeasure.GivesUpIff`). A missed convert command leaves the strong pull-up on
  (`OwMeasure.ConvertMissed`, a run from the start).
* The failsafe of the heat-recovery unit does not come while bytes keep coming: after one
  wrong byte, correctly received bytes that never pause for more than 50 ms hold
  it off for ever, and no command is obeyed (`RekuRx.BytesStarve`).
  `RekuRx.FailsafeIff` says exactly when it comes, and `RekuRx.FailsafeComes` that silence
  always leads to it.
* The host has a flow of its own for the exhaust fan of the heat-recovery unit, but sends the
  one flow for both: `RekuHost.OneFlowForBoth` holds for every setting.
* The PRU samples a 1-Wire read slot more than 15 us after its edge, up to 29 us with polls
  14 us apart (`PruTriplet.SampleTime`). The search is proved for devices that hold their
  zeros until then (`PruTriplet.HeldIsRead`).

## Model

| member | source | states |
|---|---|---|
| Crc8.LookupIsShift8 | bytd/src/data.cpp:17-34 | every entry of the 256-entry table is eight clocks of the shift register of x^8+x^5+x^4+1 |
| Crc8.TableIsBitwise | bytd/src/data.cpp:133-139 | for messages of any length the table CRC is the register fed with the message's bits, lowest bit of each byte first |
| Crc8.CalcCrc | bytd/src/data.cpp:133-139 | the loop over a buffer yields its table CRC |
| Crc8.CheckCrc | bytd/src/data.cpp:36-43 | the check accepts exactly when the message with its CRC byte appended leaves residue 0 |
| Crc8.ResidueIffMatch | bytd/src/data.cpp:36-43 | a CRC byte matches iff message and CRC together have CRC 0 |
| Crc8.DallasCrc8 | script/sim/PruOneWire.py:55-61 | the nested bit loop on an unbounded integer yields the table CRC |
| Crc8.CrcLinear | bytd/src/data.cpp:133-139 | the CRC of the XOR of two messages is the XOR of their CRCs |
| Crc8.DamageAccepted | bytd/src/data.cpp:36-43 | a damaged message still passes iff the damage pattern itself has CRC 0 |
| Crc8.CrcParity | bytd/src/data.cpp:133-139 | the parity of the CRC is the parity of the message |
| Crc8.OddErrorsCaught | bytd/src/data.cpp:36-43 | any odd number of flipped bits, anywhere in message or CRC, is caught |
| Crc8.BurstCaught | bytd/src/data.cpp:36-43 | any damage confined to eight consecutive bits is caught, also across bytes |
| Crc8.CalcCrc8Bit | avr/fw/main.cpp:1037-1055 | the masking MSB-first form is eight MSB-first clocks of CRC xor byte |
| Crc8.CheckCrcWord | avr/fw/scd4x_sm.cpp:33-46 | the check of a word accepts exactly its MSB-first CRC started at 0xFF |
| Crc8.ReverseBits | avr/fw/main.cpp:1024-1035 | the early-ending loop reverses the eight bits of every byte |
| Crc8.MsbIsMirror | avr/fw/main.cpp:1024-1055 | over any bytes and start, the reversed MSB-first CRC is the table CRC of the reversed bytes |
| Crc8.Sht11Crc | avr/fw/main.cpp:1178-1181 | the sensor's check value is the Dallas CRC of the bit-reversed command and reading |
| OwBus.ChosenSome | pru/ow_sm.c:361-376 | nobody answers iff nobody listens, and otherwise the bit written keeps somebody listening |
| RomSearch.FlipIsSuccessor | bytd/src/OwThermNet.cpp:252-283 | agreeing below the branch, taking 1 there and the least bits after it gives the next code in order |
| RomSearch.NoBranchIsLast | bytd/src/OwThermNet.cpp:287-295 | with no zero branch left open there is no larger code |
| RomSearch.ProgressStep | bytd/src/OwThermNet.cpp:253-286 | one triplet keeps the pass invariant; at the branch position the answer is 00 and nowhere 11 |
| RomSearch.Pass | bytd/src/OwThermNet.cpp:243-287 | on a fault-free bus a pass yields the successor of the previous code and leaves its last zero branch; with devices vanishing it still ends with a code that was there, past a device that forks off it at the branch, or an error |
| RomSearch.ValidRomResidue | bytd/src/data.cpp:36-43 | a code has a valid CRC byte iff its 64 bits leave the register at 0 |
| RomSearch.CheckRom | bytd/src/OwThermNet.cpp:289-294 | a code is kept exactly when its CRC byte is right |
| RomSearch.Bus.DoTriplet | pru/ow_sm.c:344-427 | one triplet as the host sees it, run by the PRU's machine polled at any times at most 14 us apart, with devices that hold the line for their bits, each for its own time past the sample: it ends, with the answer of the listening devices, and those stay listening whose bit is the level they sample, each at its own time 15 to 60 us after the edge of the write slot: the chosen ones |
| RomSearch.Search | bytd/src/OwThermNet.cpp:237-298 | over such triplets the search ends and returns exactly the codes with a valid CRC, each once, in order, in as many passes as there are devices; with devices unplugged only codes that were there |
| PruTimer.ElapsedIsDuration | pru/opentherm_sm.c:41-49 | unsigned timer differences are true durations across wraps, for durations below one wrap |
| PruTimer.ElapsedModulo | pru/opentherm_sm.c:41-49 | in general they are durations modulo one wrap |
| PruTimer.AtMinus | pru/opentherm_sm.c:93-93 | setting a start time back commutes with the wrap |
| PruTriplet.PruOw.Search | pru/ow_sm.c:422-427 | in place what `Start` says of a search command; `TripletRun` is about runs from there |
| PruTriplet.PruOw.ReadSlot | pru/ow_sm.c:216-265 | in place what `ReadBit` says: one poll of a read slot, the buffer bytes seen as three bits and a direction |
| PruTriplet.PruOw.WriteSlot | pru/ow_sm.c:163-214 | in place what `WriteBit` says: one poll of a write slot |
| PruTriplet.PruOw.SearchRead | pru/ow_sm.c:346-383 | in place what `PollRead` says: the triplet reads both bits and decides the bit to write |
| PruTriplet.PruOw.SearchWrite | pru/ow_sm.c:384-418 | in place what `PollWrite` says: the triplet writes and reports |
| PruTriplet.PruOw.SmDo | pru/ow_sm.c:450-481 | in place what `Poll` says, the step of the runs in `TripletRun` and `TripletOnBus` |
| PruTriplet.TripletRun | pru/ow_sm.c:344-427 | for all polls and line levels a triplet sends at most one response (`TripletEnds`: exactly one in bounded time), with the two bits sampled, and writes the shared bit or the requested direction |
| PruTriplet.TripletEnds | pru/ow_sm.c:163-265 | whatever the bus does, after three slots of 100 us and the gaps between polls the one response has been sent |
| PruTriplet.OnBusKeeps | pru/ow_sm.c:344-418 | a poll that finds the line high at a slot's start and wired-AND at the samples takes the right sample and does not fail |
| PruTriplet.TripletOnBus | pru/ow_sm.c:359-411 | for all such polls the triplet does not fail, its response is the answer of the listening devices, and those that follow the written bit are the chosen ones |
| PruTriplet.SampleTime | pru/ow_sm.c:235-252 | a read slot is sampled more than 15 us after its edge, and by 15 us and one poll gap, or 1 us and two |
| PruTriplet.HeldIsRead | pru/ow_sm.c:216-265 | with devices that hold their zeros past that and for at most 60 us, the line is high whenever a slot is to begin, and the wired AND when one is sampled |
| PruTriplet.EdgeStartsSlot | pru/ow_sm.c:163-235 | on such a bus the machine pulls the line down exactly when a slot starts |
| PruTriplet.PulseShapeKept | pru/ow_sm.c:163-207 | the line is held low in a write slot for exactly as long as polls find the pulse too short |
| PruTriplet.DeviceReadsBit | pru/ow_sm.c:182-199 | with polls at most 14 us apart a device sampling 15 to 60 us after the edge reads the bit |
| PruTriplet.HearKeeps | pru/ow_sm.c:182-207 | over such polls every device whose sampling time has passed has read the bit, wherever between two polls that time falls |
| PruTriplet.AllHeard | pru/ow_sm.c:384-418 | when the triplet is over every listening device has read the bit written |
| OpenTherm.OtModem.OtTransmit | pru/opentherm_sm.c:51-62 | in place what `Transmit` says; refused exactly when not idle, with one error status and no change (`StepAnswers`) |
| OpenTherm.OtModem.OtSmDo | pru/opentherm_sm.c:64-150 | in place what `Poll` says in each of the six states, the step of all runs below |
| OpenTherm.OtModem.ReadLine | pru/opentherm_sm.c:103-127 | in place what `PollRead` says: an edge is a mid-bit edge, a bit border, or an error, by its age |
| OpenTherm.TxKeeps | pru/opentherm_sm.c:70-87 | a poll of the sender keeps the relation between sender and receiver |
| OpenTherm.RxKeeps | pru/opentherm_sm.c:88-127 | a poll of the receiver keeps it or delivers exactly the word |
| OpenTherm.RoundTrip | pru/opentherm_sm.c:51-127 | for every word, all polls whose longest gaps add up to at most 100 us and all timer values, the receiver reports nothing but that word, once, within 34 bit cells |
| OpenThermAnswers.RequestWaits | pru/opentherm_sm.c:70-145 | an accepted request goes out in 34 cells whatever the line shows, and the first poll more than 10 ms after the last one ended leaves the modem waiting; until then nothing is said |
| OpenThermAnswers.SilentLine | pru/opentherm_sm.c:88-102 | on a line silent after the gap exactly one answer comes, that there is none, at the first poll more than 800 ms after the last cell ended, and before that none |
| OpenThermAnswers.ReplyRead | pru/opentherm_sm.c:51-145 | a reply that another modem begins while this one waits, at least 600 us before it gives up, is read and is all that is reported |
| OpenThermAnswers.RequestAnswered | pru/opentherm_sm.c:51-147 | on any line that becomes quiet at some time an accepted request is answered exactly once, within 34 cells, 800 ms and 34 bit windows, or 50 ms after the line became quiet, plus poll gaps |
| OpenThermBound.BoundIsSharp | pru/opentherm_sm.c:70-127 | for every word and any longest gaps that add up to more than 100 us there are polls within them that lose the frame, so the bound of the round trip is exact |
| OpenTherm.EveryRequestAnswered | pru/opentherm_sm.c:51-147 | over every run and input, answers other than refusals equal accepted requests, less one while one is open |
| OpenTherm.StepAnswers | pru/opentherm_sm.c:51-147 | one call answers at most once and only on becoming idle; a request while busy changes nothing |
| OpenTherm.ReadingEnds | pru/opentherm_sm.c:103-127 | whatever the line does reading is left within 34 bit windows plus poll gaps |
| OpenTherm.RecoveryEnds | pru/opentherm_sm.c:128-141 | past 150 ms from the frame start and within one wrap the error state is left, with one report, exactly when a poll sees the line unchanged |
| OpenTherm.RecoveryPoll | pru/opentherm_sm.c:128-141 | exactly which poll ends the error state, for any age of the frame, with which message, and what it keeps otherwise |
| OpenThermForgets.RecoveryForgets | pru/opentherm_sm.c:88-141 | a run from waiting for a frame, with no poll gap above two ticks: the line changes at every poll for one wrap of the timer and then stays high for 150 ms; the frame is still not given up and nothing is reported |
| SlowPwm.DurInRange | bytd/src/slowswi2cpwm.cpp:13-17 | the width of an accepted duty is the multiple of 10 ms nearest to its share of a second |
| SlowPwm.NearestIs | bytd/src/slowswi2cpwm.cpp:13-17 | there is one such width for each duty: 0 for 0, a second for 100, and never less for a greater duty |
| SlowPwm.UpdateTakes | bytd/src/slowswi2cpwm.cpp:101-111 | a duty is taken for its channel exactly if both are in range, and otherwise refused with nothing changed |
| SlowPwm.WidthsFollowDuties | bytd/src/slowswi2cpwm.cpp:43-63 | in every run, for each second and channel, the width is the nearest one to the share by the duty last accepted for that channel before that second began |
| SlowPwm.SlowSwI2cPwm.constructor | bytd/src/slowswi2cpwm.cpp:23-31 | the object is `Start`: all off, the first period one period ahead, the state all runs begin in |
| SlowPwm.SlowSwI2cPwm.Update | bytd/src/slowswi2cpwm.cpp:101-111 | a duty is stored for the next period without touching the queue, or refused outside six channels and 0 to 100 |
| SlowPwm.SlowSwI2cPwm.DigOut | bytd/src/slowswi2cpwm.cpp:113-125 | in place the steps `Dig1` and `Dig2`: only the switch changes, the byte follows by `ByteConverges` |
| SlowPwm.SlowSwI2cPwm.OnWake | bytd/src/slowswi2cpwm.cpp:35-42 | in place the step `Wake`, possible exactly when the byte differs from the one written |
| SlowPwm.SlowSwI2cPwm.WriteByte | bytd/src/slowswi2cpwm.cpp:127-131 | in place the step `Write`: the byte decided earlier goes out even if the state has moved on |
| SlowPwm.SlowSwI2cPwm.OnTimeout | bytd/src/slowswi2cpwm.cpp:43-86 | in place the step `Timeout`: its loops, sort and queue together equal `Turn`, the step `RefinesIdealPwm` is about |
| SlowPwm.SlowSwI2cPwm.LatchDuties | bytd/src/slowswi2cpwm.cpp:45-63 | the loop over the channels with its appends, then sort and unique, equals `Latch` |
| SlowPwm.SlowSwI2cPwm.SwitchDueOff | bytd/src/slowswi2cpwm.cpp:64-71 | the loop over the channels clears exactly those whose time has come (`SwitchOff`) |
| SlowPwm.SlowSwI2cPwm.NextDeadline | bytd/src/slowswi2cpwm.cpp:73-79 | the last queued time, or the end of the period if none is left (`Advance`) |
| SlowPwm.QueueIs | bytd/src/slowswi2cpwm.cpp:61-63 | sorted and made unique the queue is strictly decreasing and holds exactly the switch-off times |
| SlowPwm.LatchStarts | bytd/src/slowswi2cpwm.cpp:45-79 | the period invariant holds after a period's start |
| SlowPwm.SwitchOffKeeps | bytd/src/slowswi2cpwm.cpp:64-79 | and after every later deadline |
| SlowPwm.RefinesIdealPwm | bytd/src/slowswi2cpwm.cpp:28-87 | in every run, under any duty changes, the PWM bits between deadlines, channel i in bit 7 - i, tile all time and equal ideal PWM with the widths latched every second: no drift |
| SlowPwm.QueueHoldsPending | bytd/src/slowswi2cpwm.cpp:45-79 | in every reachable state the queue is strictly decreasing, between deadline and period end, and exactly the switch-off times ahead; deadlines per period are distinct switch-off times plus one |
| SlowPwm.ByteConverges | bytd/src/slowswi2cpwm.cpp:35-42 | after any run at most three worker steps make the expander show the PWM bits, and the digital outputs as last set in bits 0 and 1, undisturbed by each other |
| SlowPwm.WorkerHasOneStep | bytd/src/slowswi2cpwm.cpp:35-86 | the worker waits out a deadline exactly when the byte is shown, and what the deadline changed is decided at once |
| CanLayout.ScanMob | script/deploy/bb/avrcanconf/core/config.py:298-306 | sort and scan accept a CAN id's items iff they are pairwise disjoint and inside 64 bits, and give the least number of bytes |
| CanLayout.SortFits | script/deploy/bb/avrcanconf/core/config.py:298-298 | sorting changes neither the items nor whether they fit |
| CanLayout.CheckFrames | script/deploy/bb/avrcanconf/core/config.py:297-306 | all ids are accepted iff each one's items fit |
| CanLayout.Place | script/deploy/bb/avrcanconf/core/config.py:315-319 | slices follow each other from byte 0 |
| CanLayout.ConfigNode | script/deploy/bb/avrcanconf/core/config.py:255-319 | a node is accepted iff every id's items fit and no id is used both ways; then the slices are packed, inputs first, in id order, one for each id |
| CanLayout.CountsAre | script/deploy/bb/avrcanconf/core/config.py:333-349 | every object is counted once, among its kind |
| CanLayout.UploadNode | script/deploy/bb/avrcanconf/core/config.py:333-362 | the upload completes exactly when every number fits its field and no id goes to the message object of the answers (avr/fw/main.cpp:154-182); then the node has the slice ends |
| CanLayout.UploadsBytes | script/deploy/bb/avrcanconf/core/config.py:333-362 | an upload completes exactly if there are at most 12 message objects and every number that goes out, ids low byte first, is a byte |
| CanLayout.SlicesAreMobs | avr/fw/main.cpp:195-216 | the begins and sizes the node works out are the allocator's |
| CanLayout.SlicesPartition | avr/fw/main.cpp:195-216 | every byte of the image lies in exactly one slice |
| CanLayout.ObjectInSlice | script/deploy/bb/avrcanconf/core/config.py:122-139 | every object's bits lie in the slice of its id |
| CanLayout.ObjectsApart | script/deploy/bb/avrcanconf/core/config.py:297-319 | no two objects of a node share a bit of the image |
| CanLayout.HostLengthIsSize | bytd/src/builder.cpp:168-204 | the host makes each frame exactly as long as the node's slice |
| CanBuilder.AddCanObj | bytd/src/builder.cpp:101-115 | finds or adds the object of an id, long enough for all its items; fails beyond eight bytes |
| CanBuilder.BuildCan | bytd/src/builder.cpp:125-231 | one object for each id, one item for each configured output, at its place |
| CanHost.PutGet | bytd/src/candata.cpp:85-88 | a written item reads back from the frame bytes |
| CanHost.PutApart | bytd/src/candata.cpp:124-127 | a written bit or word leaves every item apart from it as it was |
| CanHost.PutBits | bytd/src/candata.cpp:85-88 | bit k of an item, lowest first, goes to bit k of its place in the frame |
| CanHost.OutputControl.BusSend | bytd/src/canbus.cpp:106-123 | accepted exactly when no frame is in flight; then this one is |
| CanHost.OutputControl.UpdateItem | bytd/src/candata.cpp:48-57 | in place what `Update` says: the value is in the frame, which was sent or is marked as waiting |
| CanHost.OutputControl.SetItem | bytd/src/candata.cpp:77-83 | in place what `Set` says: nothing at all happens for an unchanged value |
| CanHost.OutputControl.OnWriteReady | bytd/src/candata.cpp:59-70 | the loop equals the recursive `WriteReady`: the first waiting object goes out and the others keep waiting (`EchoReduces`) |
| CanHost.OutputControl.OnRead | bytd/src/canbus.cpp:78-104 | in place what `Read` says: only an equal frame ends the flight and lets waiting ones go |
| CanHost.NoUpdateLost | bytd/src/candata.cpp:48-70 | in every reachable state whatever waits has a frame in flight ahead of it, every written object that does not wait was last sent as it is, and every written item's last value is in its frame |
| CanHost.EchoReduces | bytd/src/canbus.cpp:69-96 | a frame that differs from the one in flight in id, length or a byte below the length changes and sends nothing; its echo ends the flight and sends the first waiting object as it is, and nothing else changes |
| CanHost.OneInFlight | bytd/src/canbus.cpp:69-123 | over every run in which the bus echoes the host's frames in order among frames of other nodes: of the frames sent at most one has not come back, and one exactly when the host thinks one is in flight, namely that one |
| CanHost.DrainEnds | bytd/src/candata.cpp:59-70 | echoes alone empty the queue, with one frame for each waiting object |
| CanNode.AvrNode.constructor | avr/fw/main.cpp:821-823 | the image starts as zeros |
| CanNode.AvrNode.OnInterrupt | avr/fw/main.cpp:710-736 | a frame of a message object is taken unless the object sends or is one of the two for service commands |
| CanNode.AvrNode.OnReceived | avr/fw/main.cpp:723-736 | the in-place copy loop and the pin loops equal `Taken`: at most the slice's and the frame's bytes are copied, then every object of that slice is driven |
| CanNode.AvrNode.IterateOutputObjs | avr/fw/main.cpp:641-657 | both loops over objects equal one pass over all of them; a pin changes only if its object belongs to the message object |
| CanNode.AccessedIsKept | avr/fw/main.cpp:60-120 | the bits and words that the node reads or writes for an object of each kind are exactly the bits the allocator keeps for it |
| CanNode.TakenSlice | avr/fw/main.cpp:725-731 | a frame at least as long as its slice fills it, cut to it, and every other slice stays as it was |
| CanNode.ImageShowsLast | avr/fw/main.cpp:177-182 | after any frames, each handed to the first message object that agrees in eleven bits, the place of an object has what the latest frame of its id has there, if that was long enough and the frames of other ids did not reach it |
| CanNode.PinShowsImage | avr/fw/main.cpp:641-656 | with no shared pins and received ids that differ in eleven bits, the pin of an object shows its place in the image after any frames once one of its id has come |
| CanNode.UnreachedStays | avr/fw/main.cpp:716-721 | the objects of a service message object, or of one behind another with the same eleven bits, keep image and pin whatever frames come |
| CanImage.EndToEnd | bytd/src/candata.cpp:48-70 | from host items to the node: if the upload completes and the filters keep frames apart, then once nothing waits and all frames are taken, whatever other nodes sent between, every item ever written has its last value in the node's image; and on its pin, if no two objects share one |
| CanImage.LampLights | avr/fw/main.cpp:641-649 | an instance: one lamp, switched on at the host, has its pin high after the one frame |
| CanImage.HostHasSent | bytd/src/candata.cpp:48-70 | when nothing waits the latest frame of an item's id carries its last value |
| CanImage.NodeShows | avr/fw/main.cpp:641-736 | the node's image has an item as the latest frame of its id has it, which may be longer than the node needs, if frames of other ids do not reach it |
| CanImage.BuiltFresh | bytd/src/builder.cpp:98-231 | a host built from a configuration whose output items fit meets all the sender relies on |
| CanImage.HostLengthGrows | bytd/src/builder.cpp:168-204 | a host that knows the outputs of all nodes makes no frame shorter than one node needs |
| CanConfig.Check | script/deploy/bb/avrcanconf/core/config.py:141-154 | passes exactly when no digital object is on a pin that a sensor kind of the node uses |
| CanConfig.ClaimsAre | script/deploy/bb/avrcanconf/core/config.py:141-154 | which pins each sensor kind claims, when the node has one |
| CanConfig.ConfigureAll | script/deploy/bb/avrcanconf/core/config.py:381-396 | a whole configuration is accepted iff every node is, no digital object is on a sensor's pin and no two nodes use a CAN id in common; then each layout packs its node |
| CanConfig.AcceptedOutputsFit | bytd/src/builder.cpp:113-231 | the outputs of all nodes of an accepted configuration fit the frames the host makes for them |
| CanConfig.AcceptedLinks | bytd/src/builder.cpp:113-231 | so a host built for it and any of its nodes, as uploaded, meet all that `ImageFollowsIff` and `PinsFollowIff` ask |
| CanPins.ImageFollowsIff | avr/fw/main.cpp:177-182 | for every configuration the tools accept: the image has the items' last values after all runs iff the upload completes, received ids differ in eleven bits and no other frame of the bus reaches the objects of one |
| CanPins.PinsFollowIff | avr/fw/main.cpp:641-656 | and the pins have them iff besides no two output objects of the node share a pin |
| CanPins.ServiceObjectsFail | avr/fw/main.cpp:691-721 | were the lost answers of the upload ignored, a node with more than 12 received ids would still have a run after which an object of message object 12 has not the item's value, on image and pin |
| CanCases.SharedPinGoesLow | script/deploy/bb/avrcanconf/core/config.py:141-154 | an accepted configuration with two switches on one pin, and a run after which the first is on at the host and the pin is low |
| CanCases.SameFilterFails | avr/fw/main.cpp:177-182 | an accepted configuration with ids 0x001 and 0x801 that uploads, with distinct pins, and whose image and pins do not follow |
| CanCases.ManyObjects | script/deploy/bb/avrcanconf/core/config.py:359-362 | any number of switches with ids of their own is accepted, and no more than twelve can be uploaded |
| Valve.CalcMotionReaches | bytd/src/Ventil4w.cpp:31-40 | the path reaches the target in at most two ports and meets the mark only between ports 3 and 0 |
| Valve.RightIffBelieved | bytd/src/Ventil4w.cpp:31-52 | moving as computed ends at the target iff the believed position was right |
| Valve.WrongBeliefSucceeds | bytd/src/Ventil4w.cpp:182-259 | an instance: belief 1, ring at port 0, target 2; no leg's mark tells the difference, and the ring ends at port 1 |
| Valve.ExpectedIsOnRing | bytd/src/Ventil4w.cpp:43-52 | the mark is expected exactly where the ring has it |
| Valve.MoveStep | bytd/src/Ventil4w.cpp:226-244 | one event of a move: the next port is reached with the mark met iff it lies before it |
| Valve.HomeStep | bytd/src/Ventil4w.cpp:150-163 | one event of homing keeps the count consistent and comes nearer to port 0 |
| Valve.Ventil4w.constructor | bytd/src/Ventil4w.cpp:312-330 | the believed position is the stored one, and it is believed exactly if one is stored |
| Valve.Ventil4w.HomePos | bytd/src/Ventil4w.cpp:138-180 | from anywhere: success means port 0, in at most 11 edges; it fails only on a timeout or deadline |
| Valve.Ventil4w.Move | bytd/src/Ventil4w.cpp:182-259 | success means the ring went the computed ports and on every leg met the mark exactly if the believed path has it there; from a port and with no timeout or deadline, it succeeds iff that is so |
| Valve.Ventil4w.LeavePort | bytd/src/Ventil4w.cpp:207-220 | the port is left, or the wait timed out and nothing moved |
| Valve.Ventil4w.Travel | bytd/src/Ventil4w.cpp:222-248 | believed and real position advance together; it goes on exactly while the mark of each leg agrees, and stops with an error at the first that does not |
| Valve.Ventil4w.Task | bytd/src/Ventil4w.cpp:261-303 | believing to be in position implies the ring is at the target and that position is stored, otherwise none is, and one result is reported |
| OwEngine.OwSm.OwInit | avr/fw/ow_sm.cpp:488-511 | in place what `Init` says: refused when busy, failed when the line is low, else the reset pulse begins |
| OwEngine.OwSm.OwReadBits | avr/fw/ow_sm.cpp:430-447 | in place what `StartRead` says; from there `ReadCollects` |
| OwEngine.OwSm.OwWriteBits | avr/fw/ow_sm.cpp:449-467 | in place what `StartWrite` says; from there `WriteCompletes` |
| OwEngine.OwSm.OwSmDo | avr/fw/ow_sm.cpp:513-540 | in place what `Tick` says, the step of every engine run |
| OwEngine.OwSm.DoWriteBits | avr/fw/ow_sm.cpp:208-291 | in place what `WriteTick` says: slot end, next bit, strong pull-up request before the last bit |
| OwEngine.OwSm.DoReadBits | avr/fw/ow_sm.cpp:237-319 | in place what `ReadTick` says: the sample goes to its bit, then the next slot or the end |
| OwEngine.BusyRefuses | avr/fw/ow_sm.cpp:430-511 | any command to a busy engine changes nothing but the response |
| OwEngine.ResetOutcome | avr/fw/ow_sm.cpp:488-540 | how a reset ends, from the levels before it and at its three interrupts, with the bus released |
| OwEngine.WriteCompletes | avr/fw/ow_sm.cpp:183-291 | a write always completes within two interrupts to the bit, never fails, keeps the data, and leaves the strong pull-up on iff asked for with two bits or more |
| OwEngine.WriteTickKeeps | avr/fw/ow_sm.cpp:183-291 | the strong pull-up is never on before the last bit is out |
| OwEngine.ReadCollects | avr/fw/ow_sm.cpp:228-319 | a read completes after two interrupts to the bit and bit k is the line at its sampling interrupt |
| OwMeasure.OwNode.constructor | avr/fw/main.cpp:304-313 | every sensor starts without a reading |
| OwMeasure.OwNode.OnOwError | avr/fw/main.cpp:889-903 | in place what `OwError` says: an index past the end falls back to the first sensor, whose word is then marked |
| OwMeasure.OwNode.MeasureOwTempSm | avr/fw/main.cpp:905-1019 | both machines in place equal `Poll`, the step `GivesUpIff`, `LevelsFit` and `ImageIsChecked` are about |
| OwMeasure.OwNode.LookAgain | avr/fw/main.cpp:917-925 | the second look at the response, after any interrupts since the first, equals `SecondLook` |
| OwMeasure.OwNode.Store | avr/fw/main.cpp:979-994 | the CRC of a scratchpad decides between its temperature and no reading |
| OwMeasure.CrcOkIsResidue | avr/fw/main.cpp:979-990 | a scratchpad is taken exactly if its 72 bits leave the bit-serial register at zero |
| OwMeasure.InterruptKeeps | avr/fw/ow_sm.cpp:513-540 | an interrupt keeps the relation between the measurement and the engine |
| OwMeasure.CallKeeps | avr/fw/main.cpp:905-1019 | so does a poll, whatever interrupts come between its two looks at the response |
| OwMeasure.ImageIsChecked | avr/fw/main.cpp:977-1003 | in every run each image word is no reading, or the temperature of the latest scratchpad read of that sensor whose CRC matched |
| OwSensors.CommandsHeard | avr/fw/main.cpp:927-959 | in every run with sensors on the line: a conversion begins when all have heard "skip ROM, convert" since the reset, and sensor i is read when all have heard the command for it, its code bit by bit |
| OwSensors.ImageIsItsSensors | avr/fw/main.cpp:905-1003 | in every such run each image word is no reading, or the temperature that the sensor with the code configured for that word had in its scratchpad when last read, with a matching CRC |
| OwSensors.AbsentIsInvalid | avr/fw/main.cpp:977-994 | a sensor that is not on the line never has a valid reading |
| OwRounds.RoundReadsAll | avr/fw/main.cpp:905-1019 | when every poll comes after the engine has finished, a round reads each sensor once, in order, and is back at its begin after five polls and three for each sensor |
| OwMeasure.GivesUpIff | avr/fw/main.cpp:905-1019 | in every run: a write or read is given up iff it completes, well, between the two looks of a poll; an initialisation iff it failed or ends between them; then an existing sensor is marked |
| OwMeasure.LevelsFit | avr/fw/main.cpp:905-1019 | in every run commands meet an idle engine, the busy, write and read failure responses are never met, and the strong pull-up is on during the whole conversion and otherwise only from the last slot of its command on, or in a pause after a missed completion |
| OwMeasure.ConvertMissed | avr/fw/main.cpp:927-935 | a run from the start in which one interrupt between the two looks makes the written convert command be given up, with the strong pull-up left on |
| RekuRx.TimeoutIsAge | rekuperacia_fw/main.c:124-131 | the 16-bit comparison tests the true age below one wrap |
| RekuRx.TimeoutIsResidue | rekuperacia_fw/main.c:124-131 | in general the age less whole wraps |
| RekuRx.Receiver.UpdateControlPVs | rekuperacia_fw/main.c:96-114 | the outputs become those of the frame, with off taking precedence over duties and bypass |
| RekuRx.Receiver.DoRxByte | rekuperacia_fw/main.c:258-299 | in place what `OnByte` says: error, mark, CRC and index in the order of the code, one step of the runs below |
| RekuRx.Receiver.DoRxIdle | rekuperacia_fw/main.c:300-326 | in place what `OnNothing` says: the pauses and the failsafe |
| RekuRx.StepKeeps | rekuperacia_fw/main.c:256-327 | the index stays in the frame; outputs change exactly on a marked frame with a matching CRC, to what it says, or on the failsafe, exactly when that is due |
| RekuRx.PausesFollow | rekuperacia_fw/main.c:258-313 | exactly which bytes make the receiver wait for a pause, from which moment on it waits, what ends the wait, and that a frame standing still for 50 ms is given up |
| RekuRx.OnlyCommandsObeyed | rekuperacia_fw/main.c:256-299 | in every run an obeyed command is the last four bytes received |
| RekuRx.Resynchronises | rekuperacia_fw/main.c:256-327 | after any run, silence beyond both pauses and then a valid command leads to exactly one update, with that command |
| RekuRx.FailsafeIff | rekuperacia_fw/main.c:256-327 | after any run and whatever bytes came: exactly which call drives the failsafe |
| RekuRx.BytesStarve | rekuperacia_fw/main.c:258-303 | after any run from a reset, one wrong byte (without the mark, or with a wrong CRC) and then well received bytes of any kind that never pause for more than 50 ms leave outputs and communication state alone for ever: no command is obeyed and no failsafe comes |
| RekuRx.FailsafeComes | rekuperacia_fw/main.c:300-326 | when bytes stop, after any run from a reset: both pauses and 1.5 s later both fans are at 64 and the bypass is closed, if a command was ever obeyed |
| RekuHost.EncodedIsObeyed | rekuperacia_fw/main.c:96-114 | a command laid out with both duties, bypass and off is obeyed as such: each duty to its fan, and off overrides all |
| RekuHost.CommandsAreEncoded | rekuperacia_fw/main.c:256-299 | the unit obeys nothing but such commands |
| RekuHost.NoPercentage | bytd/src/Reku.cpp:27-36 | no value, a negative one, or one beyond the range gives no duty |
| RekuHost.DutyIsShare | bytd/src/Reku.cpp:27-36 | a percentage gives the duty just below its share of 255, monotonically |
| RekuHost.OneFlowForBoth | bytd/src/Reku.cpp:55-84 | the unit obeys every frame of the host; both fans then run with the one flow, whatever is set for the exhaust, and the bypass is as set |
| RekuFilter.Pass | rekuperacia_fw/main.c:364-369 | one pass of the in-place sort puts the next largest value in place; no swap means sorted |
| RekuFilter.BubbleSort | rekuperacia_fw/main.c:357-374 | the in-place sort with early exit gives the sorted values |
| RekuFilter.SortSorts | rekuperacia_fw/main.c:357-374 | those are a sorted permutation |
| RekuFilter.MedianBetween | rekuperacia_fw/main.c:376-380 | with at most two outliers of five the median is within the good samples' range |
| RekuFilter.Channel.OnConverted | rekuperacia_fw/main.c:391-412 | one converted sample, with the buffer sorted in place, equals `Sample` |
| RekuFilter.ReportInRange | rekuperacia_fw/main.c:382-412 | 320 ten-bit samples give one report, the exact average of 64 medians (no overflow), within the good samples' range |
| RekuFilter.EveryReport | rekuperacia_fw/main.c:382-412 | over any number of ten-bit samples: one report for each full 320, each the exact average of its 64 medians, within every range that at most two of each five samples miss |
| Heating.DutyAccepted | bytd/src/kurenieHW.cpp:12-75 | every valve command is a duty the PWM driver accepts; rooms have distinct channels |
| Heating.DeltaIsOverWindow | bytd/src/Kurenie.cpp:276-294 | the ring gives the newest value and its difference to the one eight values before |
| Heating.Kurenie.UpdateTBufs | bytd/src/Kurenie.cpp:251-262 | the loop with its early exit: temperatures up to the first missing one are added, and a missing one is an error |
| Heating.Kurenie.FindCandidates | bytd/src/Kurenie.cpp:118-134 | the loop finds the last other room that wants heat with its valve open, and the last such that is too cold |
| Heating.Kurenie.RunCalcRooms | bytd/src/Kurenie.cpp:164-171 | the loop equals `CalcRooms`: the main valve is 100 whatever it was, each other one regulated from its own room |
| Heating.Kurenie.RunCalc | bytd/src/Kurenie.cpp:113-162 | the returns and fall-throughs equal `Calc`: keep a cold main room, else a cold candidate, else leave an overheated one |
| Heating.Kurenie.RunCheck | bytd/src/Kurenie.cpp:173-188 | in place what `Check` says: the floor limit takes effect in the same step |
| Heating.Kurenie.RunUpdate | bytd/src/Kurenie.cpp:72-101 | the loop equals `Update`: defaults on error, and a valve's time restarts only when its value changes |
| Heating.Kurenie.RunProcess | bytd/src/Kurenie.cpp:25-42 | the whole step in place equals `Process`, the step `EveryStepSafe` and `ErrorHolds` are about |
| Heating.MainControlBounded | bytd/src/Kurenie.cpp:226-249 | the regulated setpoint stays between 38 and the limit |
| Heating.ProcessSafe | bytd/src/Kurenie.cpp:25-42 | without overrides: setpoint 0 or in [38, 80], at most 50 unless the floor valve is reported closed, 0 with default valves on any fault; if positive the main room's valve is commanded to 100; the main room changes only to one with a setpoint and an open valve |
| Heating.EveryStepSafe | bytd/src/Kurenie.cpp:25-42 | the same for every step of every run |
| Heating.ErrorHolds | bytd/src/Kurenie.cpp:33-41 | an error lasts exactly 92 steps |
| HeatingLaw.StepObeys | bytd/src/Kurenie.cpp:113-249 | over a whole step: which room leads, that the setpoint is the limit, 38, or moved by 0.1 of the error and 7 of the change, and that each other valve goes to 100, to 0 or by error and change |
| HeatingLaw.StepOutputs | bytd/src/Kurenie.cpp:72-101 | in an error nothing is heated and no valve has power, and when no room leads none has; otherwise setpoint and valves are as decided or overridden, and a valve's time changes exactly with its command |
| HeatingLaw.SetpointFalls | bytd/src/Kurenie.cpp:226-249 | the setpoint never rises with the temperature of the leading room |
| HeatingLaw.ValveFalls | bytd/src/Kurenie.cpp:199-224 | nor a valve with the temperature of its room |
| HeatingLaw.CommandOpens | bytd/src/kurenieHW.cpp:45-75 | the power given to a valve of either kind opens it as far as commanded, and the default is no power |
| HeatingLaw.ShowsMeasured | bytd/src/Kurenie.cpp:251-294 | in every run a room shows the temperature measured last and its change since the one eight measurements before |
| HeatingLaw.TripIsOver | bytd/src/kurenieHW.cpp:10-33 | in every run a valve that counts as fully open or closed was commanded so in every step of the last eight minutes |

## Left out

- Buses and ports: rpmsg, registers, GPIO, I2C, SocketCAN, serial ports, MQTT, YAML and asio are input values and output traces.
- Threads: every locked region, callback, interrupt and poll is one atomic step, and so is `OutputControl::update` (bytd/src/candata.cpp:48-57), which takes no lock; interleavings inside it are not modelled. One poll reads the timer and the OpenTherm line once where the C code reads them more than once; a command to the AVR engine is one step, its timer being off until the command starts it.
- Floats: duties, temperatures and setpoints are reals; NaN is `None` where the code tests for it. A NaN duty, which the PWM's range check lets through, is not modelled.
- SlowPwm.RefinesIdealPwm: is about deadlines; how late the thread wakes for one is not modelled, only that no lateness shifts later deadlines. The shutdown flag is left out.
- OpenTherm.RoundTrip: is about one frame on a line driven only by the sender, read by a receiver already waiting, and begun early enough that its start bit comes before the receiver gives up after 800 ms.
- PruTriplet.TripletRun: a slot that finds the line low ends the triplet with a failure status; reset, plain reads and writes of the PRU machine are not modelled (its plain write reports no status on such a failure).
- RomSearch.Search: the answer to a reset is that of the bus; the line is high before the first slot, and every device holds its zeros until the sample, up to 29 us with polls 14 us apart, and for at most 60 us. Lost or damaged replies of the PRU are not modelled.
- CanImage.EndToEnd: an item never written, and frame bytes beyond the first length of a frame, have no claimed value; frames lost because a message object is still full, and a frame that arrives while an earlier one of its object is being taken, are excluded by the lossless bus. A pin's level is what the output objects wrote last; other drivers of a pin are not modelled, and a pin used as a switch and as a PWM channel counts as two pins. Node inputs and the transmit marks of the node are left out, also for its 1-Wire values.
- CanLayout.ConfigNode: the allocator reports which error it met first; here it is one error. The pins checked against those of the sensors are texts, compared as written. Bit numbers above 7 are excluded by type.
- CanLayout.UploadNode: parameters of single objects (ROM codes, prescaler, debounce, pin names) are left out, and so is what a node does after an upload that failed.
- CanHost: input items and the received-frame callback are left out; a frame that is not the awaited echo changes nothing here.
- Valve: each wait yields one edge or a timeout; several edges pending at once, spurious edges, coasting after the motor stops and a crash during a move are not modelled. Texts of positions are port numbers.
- OwSensors.ImageIsItsSensors: the lengths of slots and pulses are left out: a sensor takes a write slot for a one exactly if the line is free again at once. A sensor's scratchpad changes at any time except while it is read.
- RekuHost: the bypass is an input; how the host sets it from the temperatures is left out, and so are its reading of replies and its serial port.
- OwMeasure: service commands (search, test reads and writes) do not interleave; the pauses of 850 and 1000 ms are an input; the value that stands for no reading comes from a generated header and is a parameter.
- RekuRx: the reply and the LED, the receiver enable bit (which stops reception after an error) and the tachometer are left out; after a reset the CRC-checked frame buffer has arbitrary contents.
- RekuFilter: the timing of the converter and the switching between the two channels; each channel is filtered on its own.
- Heating: the overrides are modelled but the safety results are stated without them; publishing and logging are left out. Start values of the valve widths are arbitrary.
- Dimmers, wall switches, meters, pump, bootloader, SHT11 and SCD4x state machines, the boiler simulator and pin scripts: they would add only easy members.
