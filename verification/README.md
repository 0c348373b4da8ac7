# NeTV2 video overlay: a verified model

NeTV2 sits between an HDMI source and a screen. To lay graphics over a protected
stream its gateware snoops the HDCP key exchange on the display's I2C bus,
recomputes the shared secret in firmware, and runs a copy of the HDCP cipher in
lock step with the source. This project models the parts of that machinery where
a wrong clock or a wrong bit ruins the picture, and proves what they are for.

Hardware is modelled clock by clock. A datatype holds the registers, `Step` gives
the registers after one clock (every right-hand side reads the old registers), and
a class with the same registers has a `Clock` method whose contract says that it
does exactly one `Step`. Properties quantify over all input sequences of `Run`.
Firmware and the PCIe tool are methods with loops, proved against functions about
which the theorems are then stated.

| file | what it models |
|---|---|
| Bits.dfy | words of wires, the 7-bit linear network, the fourteen 4-bit substitution boxes |
| HdcpBlock.dfy | the B and K round, its inverse, the output function, the block registers |
| HdcpLfsr.dfy | the four shift registers and the shuffle chain |
| HdcpCipher.dfy | the 13-state sequencer, Ks, Ki and Mi, streaming and rekeying |
| HdcpMod.dfy | the controller in product with the cipher |
| HdcpFrames.dfy | the product over any number of frames, edges of vsync heard and missed, everything after an authentication |
| HdcpKeystream.dfy | the product against a stream cipher whose frames and rekeys happen at once, and the visible part of a frame by its inputs alone |
| BitTime.dfy, DelayController.dfy | the bit-time table and the per-bit delay controller it feeds |
| DelayAdjustment.dfy, EyeMonitor.dfy | when that controller moves its delays and how far, and what its eye monitor measures and where |
| Deglitcher.dfy, I2cSnoop.dfy, I2cWaveform.dfy | edge filters, the bus snooper, and what it makes of whole sampled waveforms |
| KeyMath.dfy | the shared secret Km, over an arbitrary key matrix |
| ClockSearch.dfy | the search for a pixel clock's multiplier and divider, with 32-bit wrap-around |
| PnData.dfy | pseudo-noise DMA data and the search for its alignment |
| Edid.dfy | building, checking and reading an EDID block |

The cipher follows the HDCP specification, Revision 1.4, sections 4.2 to 4.5; the
snooper's register map is that of section 2.6, and its bus that of UM10204.

## What the proofs found

* The controller's comment promises that the stream is ready whenever the
  controller returns to its ready state (overlay/hdcp_mod.v:261-262). It is not:
  `HdcpMod.ReadyOnReturnIff` gives the exact condition and
  `HdcpMod.ReturnToReadyUnready` a run, two line ends 57 clocks apart, that breaks
  it. The rest of that comment, that only a line end makes the stream unready, is
  true (`HdcpMod.OnlyLineEndMakesUnready`).
* A rekey pulse exactly 56 clocks after an accepted one finds the step counter
  still at 56 and gets two rounds in place of 56 (overlay/hdcp_cipher.v:352,
  overlay/hdcp_cipher.v:198). `HdcpCipher.RekeyIsWholeIffCounterClear` is the
  exact condition, `HdcpCipher.SpacedRekeyIsWhole` shows that 57 clocks are enough.
* The delay controller does not reset `pd_max` and `pd_min`
  (overlay/delay_controller.v:225-241). A stale one can push the master delay past
  its range in the first clock; `DelayController.MasterIsSafeIff` says exactly when.
* An eye run that is left unfinished, because `enable_monitor` is cleared during it,
  keeps the phase detector from adjusting anything until it is set again
  (overlay/delay_controller.v:281, 331). `DelayAdjustment.AdjustmentIsPossibleIff`:
  without monitoring an adjustment can start, and does within 64 clocks, if and only
  if no eye run is unfinished. `DelayAdjustment.EyeRunCanBeLeftUnfinished` gets there
  from reset in two clocks.
* An eye run that is interrupted for a clock and then resumed goes on with the slave
  at its idle place, so its verdict belongs to another tap
  (overlay/delay_controller.v:335, 347-357): `EyeMonitor.RunIsAtItsTapIff` is the
  exact condition, `EyeMonitor.ResumedRunIsOffItsTap` such a run from reset.
* A vsync edge is lost for good when it falls in the 57 clocks after a line end:
  the controller looks at it only while ready with a ready stream, and by then vsync
  is high already (overlay/hdcp_mod.v:263-273). `HdcpFrames.FrameIsLost` is such a
  run, `HdcpKeystream.BeginsIff` and `HdcpFrames.EveryFrameHasItsKeys` the exact
  condition.
* The bit-time table notes lowest bit rates of 420 and 631 Mbit/s
  (firmware/hdmi_in0.c:102, 125). The tap counts span a bit from 414 and 621 on;
  `BitTime.ComputeAutoBtVal` has the exact rates for all three reference clocks.
* The clock search, apart from the frequency check its note asks for, relies on
  differences that fit 31 bits (firmware/processor.c:389-390). Among all 32-bit
  arguments it returns the closest candidate if and only if the argument is at most
  17,417,294: `ClockSearch.SearchFindsBestIff`.
* The snooper does not notice a repeated start that comes straight after the device
  address of a write (overlay/i2c_snoop.v:157-159), and a stop there shifts the
  register address it keeps: `I2cWaveform.RestartIsNoticedIff`,
  `I2cWaveform.AddressOnly`.
* Of the vertical sync fields of a generated EDID block a reader gets the offset
  back only when it is zero, and the width only when it equals the offset modulo 16,
  because the code stores eight low bits of the offset where the format has four of
  each (firmware/edid.c:154): `Edid.VSyncDecodesIff`.
* The name of a generated EDID block is found by the reader unless the timing
  descriptor itself looks like a name: `Edid.NameIsSecond`.

## Model

| member | source | states |
|---|---|---|
| Bits.ParityFlip | overlay/diff_network.v:33-39 | replacing one input of an exclusive-or sum changes it by the difference of that input |
| DiffNetwork.UndiffuseUndoes | overlay/diff_network.v:33-39 | the seven inputs of the network can be computed back from its outputs and the key, for every key |
| DiffNetwork.DiffuseUndoes | overlay/diff_network.v:33-39 | every seven outputs come from some inputs: with the row above, the network is a bijection |
| Sbox.UnboxBUndoes | overlay/hdcp_block.v:217-530 | each of the seven B substitution boxes is a permutation of the sixteen values |
| Sbox.UnboxKUndoes | overlay/hdcp_block.v:217-530 | each of the seven K substitution boxes is a permutation of the sixteen values |
| HdcpBlock.BackXUndoes | overlay/hdcp_block.v:142-172 | the four networks that drive x use their inputs so that each network's inputs come back from its own output strand |
| HdcpBlock.BackYUndoes | overlay/hdcp_block.v:146-161 | the same for the four networks that drive y |
| HdcpBlock.UnlinearYUndoes | overlay/hdcp_block.v:142-172 | every bit of By is recovered from the new Bx and By, so each enters exactly where it can be found again |
| HdcpBlock.UnlinearZUndoes | overlay/hdcp_block.v:142-172 | every bit of Bz is recovered from the new Bx and By |
| HdcpBlock.LinearUndoes | overlay/hdcp_block.v:142-211 | every pair of new x and y registers is produced by some y and z, for every key |
| HdcpBlock.UnsubstUndoesB | overlay/hdcp_block.v:536-674 | the column wiring of the B boxes loses nothing, in either direction |
| HdcpBlock.UnsubstUndoesK | overlay/hdcp_block.v:536-674 | the column wiring of the K boxes loses nothing, in either direction |
| HdcpBlock.RoundBIsPermutation | overlay/hdcp_block.v:142-172 | the B round is a bijection on 84 bits for every K |
| HdcpBlock.RoundKIsPermutation | overlay/hdcp_block.v:180-211 | the K round is a bijection while rekey is low |
| HdcpBlock.RekeyRoundIsTwoToOne | overlay/hdcp_block.v:188-191 | while rekey is high the K round merges exactly two registers into one: it loses one bit and no more |
| HdcpBlock.RekeyRoundTakesBit | overlay/hdcp_block.v:188-191 | that bit is replaced by the one from the shift registers: each of its values gives another register, and a rekey round is the plain round exactly when it hands back the bit that was there |
| HdcpBlock.RoundsAreReversible | overlay/hdcp_block.v:120-126 | any number of B rounds under any schedule of K is undone, both ways round, by the inverse rounds under the reversed schedule |
| HdcpBlock.OutputIsBalanced | overlay/hdcp_block.v:680-726 | the 24 output bits add 24 different bits of By and 24 different bits of Ky, so a change of either shows in the output exactly at its tapped bits |
| HdcpBlock.FilterIsBilinear | overlay/hdcp_block.v:680-726 | the rest of every output bit is linear in Bz and in Kz |
| HdcpBlock.TermsAreDistinct | overlay/hdcp_block.v:680-726 | its seven products take seven different bits of Bz and of Kz |
| HdcpBlock.TapsAreApart | overlay/hdcp_block.v:680-726 | and none at the place that is added in from By or Ky |
| HdcpBlock.OutputIsFromBefore | overlay/hdcp_block.v:116-123 | the output registered with a round is that of the registers before it, as the inverse round gives them back |
| HdcpBlock.LoadKeepsWords | overlay/hdcp_block.v:105-113 | a load keeps the low 64 bits of the B word, zeroes the rest, and keeps all of the K word |
| HdcpBlock.OutputLoadsAsItIs | overlay/hdcp_block.v:94-113 | loaded with what B puts out, K holds register by register what B held |
| HdcpBlock.BlockUnit.Clock | overlay/hdcp_block.v:95-135 | reset, then load, then advance, in that priority; otherwise the registers keep their value |
| ShuffleNetwork.ShuffleConserves | overlay/shuffle_network.v:39-57 | a store passes bits on without making or losing any, whatever its selector does |
| ShuffleNetwork.ShuffleOrders | overlay/shuffle_network.v:47-57 | while the selector stands still a bit waits for one other to leave before it; when it changes the bit leaves at once |
| HdcpLfsr.LfsrUnit.Clock | overlay/hdcp_lfsr.v:50-143 | reset, then load, then advance, with all stores and registers reading old values |
| HdcpLfsr.LoadKeepsKey | overlay/hdcp_lfsr.v:57-62 | a load spreads the key over the registers without loss, puts the complement of a middle bit on top of each, and sets every store to give out its selector first |
| HdcpLfsr.LoadIsLive | overlay/hdcp_lfsr.v:57-62 | every load leaves all four registers nonzero, whatever the key |
| HdcpLfsr.AdvanceKeepsLive | overlay/hdcp_lfsr.v:63-134 | an advance never takes a nonzero register to zero |
| HdcpLfsr.Shift0IsPermutation | overlay/hdcp_lfsr.v:64-78 | a step of the first register can be undone, both ways round |
| HdcpLfsr.Shift1IsPermutation | overlay/hdcp_lfsr.v:80-95 | the same for the second |
| HdcpLfsr.Shift2IsPermutation | overlay/hdcp_lfsr.v:97-114 | the same for the third |
| HdcpLfsr.Shift3IsPermutation | overlay/hdcp_lfsr.v:116-134 | the same for the fourth |
| HdcpLfsr.LiveForever | overlay/hdcp_lfsr.v:57-134 | after any load and any number of advances all four registers are nonzero |
| HdcpLfsr.DelayLines | overlay/hdcp_lfsr.v:63-134 | each register is a delay line: bit k holds the feedback of k + 1 advances ago |
| HdcpLfsr.FeedbackRecurs | overlay/hdcp_lfsr.v:64-118 | the feedbacks obey the four recurrences that the source's comments number |
| HdcpLfsr.TapsAreDelays | overlay/hdcp_lfsr.v:145-193 | what enters the chain, what selects in it and what is added at its end are the four feedbacks, each with its own delay |
| HdcpLfsr.TopBitsShow | overlay/hdcp_lfsr.v:155-193 | flipping the top bit of any register flips the bit handed to the block module |
| HdcpLfsr.ChainConserves | overlay/hdcp_lfsr.v:160-191 | one advance of the chain conserves ones: held after plus out equals held before plus in |
| HdcpLfsr.OnesAreConserved | overlay/hdcp_lfsr.v:145-193 | over any run from a load, ones out plus ones held equal four plus ones in |
| HdcpCipher.CipherUnit.Latch | overlay/hdcp_cipher.v:392-427 | Ks takes B in an authentication and clears Ki, Ki takes it otherwise, Mi shifts in the low output half in the last three states, reset leaves load_lfsr alone |
| HdcpCipher.CipherUnit.Clock | overlay/hdcp_cipher.v:107-427 | one clock of sequencer, control registers, Ks, Ki, Mi, block module and shift registers, each reading the others' old values |
| HdcpCipher.CipherUnit.ClockAll | overlay/hdcp_cipher.v:107-427 | the registers after any sequence of inputs, block module and shift registers included, are those of the run the theorems are about |
| HdcpCipher.NextCtlFits | overlay/hdcp_cipher.v:150-390 | in each state the late control registers hold exactly what that state's history allows |
| HdcpCipher.StepKeepsInv | overlay/hdcp_cipher.v:107-427 | the above together with live shift registers from the long rekey phase on is kept by every clock |
| HdcpCipher.OperandsAreLoaded | overlay/hdcp_cipher.v:120-147 | key and seed of an initialisation reach K and B as they are, low bits first, the rest zero |
| HdcpCipher.ResetForgets | overlay/hdcp_cipher.v:204-215 | two machines with the same load_lfsr are the same after a reset: keys, M value and engine are gone |
| HdcpCipher.RekeyClockTakesBit | overlay/hdcp_cipher.v:114-129 | in every clock that advances with rekey high K takes in the bit the shift registers show |
| HdcpCipher.RekeyFollowsRegisters | overlay/hdcp_cipher.v:313-324 | rekey round n takes in bit n of the shift registers' sequence |
| HdcpCipher.PlainRoundsAreReversible | overlay/hdcp_cipher.v:241-252 | the plain rounds that turn a key and a seed into a session key can be run backwards to give both again |
| HdcpCipher.InitFollowsTimeline | overlay/hdcp_cipher.v:132-427 | the whole machine at each of the 113 clocks after an accepted pulse, round count included |
| HdcpCipher.InitTakes113Clocks | overlay/hdcp_cipher.v:132-427 | from the initial, streaming or rekeying state one init pulse is answered after exactly 113 clocks: 48 plain rounds, Ks or Ki from B, 56 rekey rounds, Mi from the last four outputs, oldest on top |
| HdcpCipher.StreamStep | overlay/hdcp_cipher.v:362-374 | undoing the one-clock delay of the controls, a streaming clock is one round if data was asked for and none otherwise |
| HdcpCipher.StreamAdvancesOnRequest | overlay/hdcp_cipher.v:362-374 | over any streaming run the engine makes exactly as many rounds as clocks that asked for data |
| HdcpCipher.RekeyRunsItsLength | overlay/hdcp_cipher.v:185-199 | an accepted rekey makes one rekey round per clock, ignores further rekey pulses and leaves Ks, Ki and Mi alone |
| HdcpCipher.RekeyIsWholeIffCounterClear | overlay/hdcp_cipher.v:350-387 | a rekey makes its 56 rounds if and only if the step counter was clear when it was asked for |
| HdcpCipher.BackToBackRekeyIsCutShort | overlay/hdcp_cipher.v:350-387 | a pulse exactly 56 clocks after an accepted one adds two rounds only |
| HdcpCipher.SpacedRekeyIsWhole | overlay/hdcp_cipher.v:350-387 | after one clock without a pulse the next rekey is whole again |
| HdcpMod.ModUnit.Latch | overlay/hdcp_mod.v:165-175 | reset and unplug win over a key write, a key write over the state machine; init is pulsed one clock after a pulse state |
| HdcpMod.ModUnit.Clock | overlay/hdcp_mod.v:165-404 | one clock of controller and cipher together, each reading the other's old registers |
| HdcpMod.ModUnit.ClockAll | overlay/hdcp_mod.v:165-404 | the same for any sequence of inputs |
| HdcpMod.InvIsInvariant | overlay/hdcp_mod.v:165-404 | the product invariant is established by reset and kept by every clock |
| HdcpMod.InvHoldsAfterReset | overlay/hdcp_mod.v:189-192 | it holds in every state after a reset; the state its comment calls unreachable, and the unused rekey state beside it, are never entered |
| HdcpMod.NothingWithoutKeyWrite | overlay/hdcp_mod.v:165-187 | after a reset or an unplug, without a key write the controller only waits, unplugged exactly as long as it is told so, and never pulses; after a reset the cipher stands still with zero keys |
| HdcpMod.OnlyLineEndMakesUnready | overlay/hdcp_mod.v:256-267 | the core assumption: staying ready, the controller sees the stream drop if and only if a line ended in the clock before |
| HdcpMod.ReadyOnReturnIff | overlay/hdcp_mod.v:239-242 | on a return to ready the stream is ready if and only if the cipher was streaming and no line ended in that clock |
| HdcpMod.ReturnToReadyUnready | overlay/hdcp_mod.v:256-273 | two line ends 57 clocks apart bring the controller back to ready with the stream not ready |
| HdcpMod.FlowStep | overlay/hdcp_mod.v:210-253 | each clock of an initialisation lowers the rank of the product state or finishes it |
| HdcpMod.FlowCompletes | overlay/hdcp_mod.v:210-253 | so a started initialisation is finished within its rank, and settled keys do not change meanwhile |
| HdcpMod.PulseDelivers | overlay/hdcp_mod.v:312-368 | the cipher accepts the controller's pulse, is busy for 113 clocks and then holds the block cipher's results |
| HdcpMod.FlowDelivers | overlay/hdcp_mod.v:210-253 | from its pulse every initialisation is over within 173 clocks, even when it meets a rekey, with the right keys and, 114 clocks after the pulse, the engine as 56 rekey rounds leave it |
| HdcpMod.FrameInitDelivers | overlay/hdcp_mod.v:245-267 | a frame noticed while ready is always accepted and within 174 clocks the controller waits for the next window with Ki and Mi from Ks and the old Mi |
| HdcpMod.AuthenticationDelivers | overlay/hdcp_mod.v:210-232 | an accepted authentication and its frame initialisation are over within 346 clocks, with Ks from Km and An and the frame's keys from Ks and M0 |
| HdcpMod.AksvStartsAuthentication | overlay/hdcp_mod.v:169-170 | a key write with the cipher idle or streaming starts an authentication, honoured as one unless a line ends just then |
| HdcpKeystream.HeededStep | overlay/hdcp_cipher.v:150-202 | what the cipher is doing is fixed by the clocks since the last line end it heeded |
| HdcpKeystream.CarryStep | overlay/hdcp_cipher.v:349-387 | outside initialisations one clock moves keys and engine by the event it stands for, a rekey counting as done at once |
| HdcpKeystream.BeginsIff | overlay/hdcp_mod.v:263-265 | within a frame the controller takes up a new one if and only if vsync rises at least 58 clocks after the last line end |
| HdcpKeystream.LineStep | overlay/hdcp_mod.v:256-273 | controller and cipher are where the clocks since the last line end say, at every level of vsync, until a new frame is taken up |
| HdcpKeystream.KeystreamFollowsInputs | overlay/hdcp_mod.v:256-273 | through the visible part of any frame the product delivers exactly the keystream of its inputs: one whole rekey per line end, one round per pixel asked for at least 58 clocks after it, nothing else |
| HdcpKeystream.ReadyBegins | overlay/hdcp_mod.v:256-266 | a ready controller with the stream ready is where such a part can start |
| HdcpFrames.BetweenStep | overlay/hdcp_mod.v:234-273 | between initialisations no clock touches Ks, Ki or Mi, and the engine moves by the clock's event |
| HdcpFrames.EdgeIsTakenIffHeard | overlay/hdcp_mod.v:263-273 | a rising vsync in ready or in the wait for a rekey is taken up if and only if it comes 58 clocks after a heeded line end, or 57 when the window closed only in the clock before |
| HdcpFrames.FlowStream | overlay/hdcp_mod.v:220-253 | an initialisation delivers one frame: keys from Ks and the last Mi, the engine those keys start, and one rekey for each line that ends before the controller goes on |
| HdcpFrames.RunDelivers | overlay/hdcp_mod.v:234-273 | over every uninterrupted run keys and engine are exactly those of the run's frames, lines and pixels, and every edge of vsync is one frame or is missed |
| HdcpFrames.Deliver | overlay/hdcp_mod.v:165-404 | the same of the registers after all the clocks of a run |
| HdcpFrames.NothingMissedIff | overlay/hdcp_mod.v:263-273 | no edge is missed if and only if each is heard |
| HdcpFrames.EveryFrameHasItsKeys | overlay/hdcp_mod.v:234-273 | Ks stays and Ki and Mi are those of the edges heard; they are those of every edge if and only if each is heard |
| HdcpFrames.SpacedEdgesAreHeard | overlay/hdcp_mod.v:263-273 | edges at least 58 clocks after every line end are all heard |
| HdcpFrames.FrameIsLost | overlay/hdcp_mod.v:263-273 | an edge 1 to 57 clocks after a line end, with vsync held high, starts no frame and leaves the controller ready with vsync already high |
| HdcpFrames.AuthenticatedStream | overlay/hdcp_mod.v:210-273 | from an accepted authentication on, keys and engine, and so the keystream of every frame, follow from Km, An and the events alone |
| HdcpFrames.AuthenticatedFrames | overlay/hdcp_mod.v:210-273 | so the keys are those of the authentication's own frame and of every edge heard since |
| HdcpFrames.WindowMakesReady | overlay/hdcp_mod.v:235-242 | the controller is ready exactly one clock after the first encryption window closes, and not before it opened |
| BitTime.ComputeAutoBtVal | firmware/hdmi_in0.c:72-129 | the tap count spans one bit if and only if the rate is at least the lowest one, and exceeds one bit by at most two taps if and only if it is at most the highest one, both exact for each reference clock; where it follows the rate it exceeds one bit by 0.52 to 1.54 taps; the fixed mechanism is chosen exactly up to 21 taps |
| DelayController.DelayUnit.ClockFilter | overlay/delay_controller.v:255-294 | comparison flags, hold-off and filter counter of one clock |
| DelayController.DelayUnit.ClockDelays | overlay/delay_controller.v:297-361 | taps, sequence step, multiplexers and eye results of one clock |
| DelayController.DelayUnit.Clock | overlay/delay_controller.v:224-363 | one clock of all registers, reset leaving the four comparison flags alone |
| DelayController.DelayUnit.ClockAll | overlay/delay_controller.v:224-363 | any number of clocks, through which the registers keep the invariant of the rows below |
| DelayController.StepKeepsSequenced | overlay/delay_controller.v:281-346 | the three sequences exclude each other, the step is zero when none goes on, data come from the slave exactly in steps 7 to 14, the multiplexers agree outside steps 10 to 15 |
| DelayController.StepKeepsFiltered | overlay/delay_controller.v:255-294 | the comparison flags are one clock late but up to date whenever an adjustment is ordered |
| DelayController.StepKeepsMonitored | overlay/delay_controller.v:336-343 | the shifter stays one-hot at the eye tap, the tap within the bit time, results above it clear |
| DelayController.InvAfterResetIff | overlay/delay_controller.v:224-363 | all of the above and a master delay within the bit time, in every state reachable from a reset that finds the two order flags clear, if and only if the initial delay is within the bit time |
| DelayController.MasterIsSafeIff | overlay/delay_controller.v:225-330 | in every run after reset the master delay stays in range and never wraps, if and only if it starts in range and no stale flag orders it past an end at once |
| DelayController.AdjustmentsAreSpaced | overlay/delay_controller.v:267-297 | two adjustments start at least 42 clocks apart |
| DelayController.WrapTakes16 | overlay/delay_controller.v:302-328 | a wrap takes sixteen clocks whatever the other inputs do, starts at one end of the range, moves the master to the other, and turns both multiplexers by one |
| DelayController.SlaveTracksIff | overlay/delay_controller.v:347-357 | the idle slave is half a bit time from the master without wrapping, for every reachable master, if and only if the fixed mechanism is not used above 21 taps |
| DelayController.SlaveSide | overlay/delay_controller.v:349-356 | the idle slave stands before the master whenever half a bit time fits there and the mechanism allows it, otherwise behind, marked as overflow |
| DelayController.MuxStartsCentred | overlay/delay_controller.v:231-328 | from the centre at reset the delay multiplexer counts the wraps, down ones up and up ones down, modulo four |
| DelayController.AutoConfigure | firmware/hdmi_in0.c:72-146 | every pair the firmware can choose meets that condition |
| DelayController.MarkOnlyMarks | overlay/delay_controller.v:337-338 | an eye verdict writes one result bit and leaves the rest |
| EyeMonitor.EyeSweepWritesEachBitOnce | overlay/delay_controller.v:331-346 | the first bt_val + 1 completed eye runs write each of bits 0 to bt_val once, with its own run's verdict, and nothing else |
| EyeMonitor.VerdictsAreAtTheirTaps | overlay/delay_controller.v:331-346 | while monitoring stays on, every verdict is taken with the slave at the tap whose bit it decides |
| EyeMonitor.EyeRunTakes23 | overlay/delay_controller.v:331-346 | with monitoring on a run that begins lasts 23 clocks at its own tap, the master still, and its last clock gives the verdict |
| EyeMonitor.SlaveDuringRun | overlay/delay_controller.v:331-357 | at every clock of a run the slave is where the last clock without monitoring sent it, or still where the run began |
| EyeMonitor.RunIsAtItsTapIff | overlay/delay_controller.v:331-357 | a run is still at its tap if and only if monitoring was on in every clock since it began, or the idle place of the last clock without it is that tap |
| EyeMonitor.ResumedRunIsOffItsTap | overlay/delay_controller.v:331-357 | one clock without monitoring after reset at full range, and the verdict for tap zero is taken half a bit time behind the master |
| EyeMonitor.InterruptedEyeRunBlocksAdjustment | overlay/delay_controller.v:281-284 | an interrupted eye run stops every adjustment until monitoring is enabled again |
| DelayAdjustment.AdjustmentMoves | overlay/delay_controller.v:297-330 | an adjustment moves the master by exactly one tap, up or down as ordered, and at the end of the range starts a wrap instead |
| DelayAdjustment.AdjustmentStarts | overlay/delay_controller.v:255-297 | with no eye run under way and steady comparisons either way, an adjustment starts within 64 clocks: the wrap ends, the hold-off drains, the counter runs to its end |
| DelayAdjustment.NextTap | overlay/delay_controller.v:255-317 | comparisons that are all too short take the master to the next tap up, all too long to the next down, at an exactly known clock and from then on every 42 clocks up or 43 down |
| DelayAdjustment.TapIsReached | overlay/delay_controller.v:255-317 | and so to any tap on that side, at an exactly known clock |
| DelayAdjustment.FirstAfterReset | overlay/delay_controller.v:225-317 | after reset the first such tap comes with clock 33 up and 34 down |
| DelayAdjustment.EveryTapIsReached | overlay/delay_controller.v:255-330 | from any tap some bounded run of the controller reaches any other in its range |
| DelayAdjustment.AdjustmentIsPossibleIff | overlay/delay_controller.v:281-297 | without monitoring, some run starts an adjustment if and only if no eye run is unfinished |
| DelayAdjustment.EyeRunCanBeLeftUnfinished | overlay/delay_controller.v:331-361 | two clocks after reset can leave such an eye run |
| Deglitcher.EdgeOnTenthSample | overlay/i2c_snoop.v:478-522 | an edge comes exactly with the tenth opposite sample in a row, and shorter glitches leave no trace |
| Deglitcher.EdgeIsOnePulse | overlay/i2c_snoop.v:561-605 | the edge state lasts one clock and the filter starts afresh at the new level |
| Deglitcher.CounterNeverExceedsTen | overlay/i2c_snoop.v:495-522 | the five-bit counter never exceeds ten, so it never wraps |
| I2cSnoop.SynchronisersDelay | overlay/i2c_snoop.v:612-624 | the two flip-flops per line are a delay of two clocks and nothing more |
| I2cSnoop.SnoopUnit.Reset | overlay/i2c_snoop.v:205-212 | reset clears every register but the bank |
| I2cSnoop.SnoopUnit.ClockRegisters | overlay/i2c_snoop.v:214-387 | bit counter, shift registers and update flag of one clock, state by state |
| I2cSnoop.SnoopUnit.ClockProtocol | overlay/i2c_snoop.v:130-424 | state, registers, strobe and one bank write from the old registers |
| I2cSnoop.SnoopUnit.Clock | overlay/i2c_snoop.v:130-624 | one clock of synchronisers, filters, protocol machine and bank |
| I2cSnoop.SnoopUnit.ClockAll | overlay/i2c_snoop.v:130-624 | the same for any sequence of samples |
| I2cWaveform.SclEdge | overlay/i2c_snoop.v:478-522 | a level of SCL held at least eleven samples gives the protocol machine one edge and then rest |
| I2cWaveform.SdaEdge | overlay/i2c_snoop.v:561-605 | the same for SDA |
| I2cWaveform.BitPlays | overlay/i2c_snoop.v:137-203 | a data bit placed while SCL is low and held over its high phase is taken in as that bit |
| I2cWaveform.ShiftInByte | overlay/i2c_snoop.v:294-314 | eight bits, most significant first, shift in as the byte, whatever the register held |
| I2cWaveform.ByteAct | overlay/i2c_snoop.v:145-192 | nine clocks of a byte and its acknowledge act on the machine as that one byte, in writes and in reads |
| I2cWaveform.FrameActs | overlay/i2c_snoop.v:137-203 | any number of bytes act one after the other |
| I2cWaveform.RestartPlays | overlay/i2c_snoop.v:142-144 | a repeated start begins a new phase, register address and bank as they were |
| I2cWaveform.RestartIsNoticedIff | overlay/i2c_snoop.v:157-181 | it does so if and only if it does not come straight after a start or after the device address of a write |
| I2cWaveform.TransactionPlays | overlay/i2c_snoop.v:130-203 | start, any phases of writes and reads with repeated starts that are noticed, and a stop anywhere between bytes lead from idle to idle |
| I2cWaveform.StoreAllAt | overlay/i2c_snoop.v:417-424 | folding a write into the bank leaves at each address the byte sent there, or the old one |
| I2cWaveform.NoteAllAt | overlay/i2c_snoop.v:418-420 | folding a read changes only the first five registers, to the bytes read there |
| I2cWaveform.AddressedWrite | overlay/i2c_snoop.v:130-429 | a sampled write of any length to the snooper's address folds byte i in at address a + i modulo 256 if that is below 0x20, and raises the key strobe once per byte at 0x14 |
| I2cWaveform.Receive | overlay/i2c_snoop.v:130-429 | the same of the registers of a snooper that samples such a write |
| I2cWaveform.AddressedRead | overlay/i2c_snoop.v:177-192 | a sampled read of any length, after a register address and a repeated start, folds byte i in at address a + i modulo 256 if that is below 5 and leaves the strobe alone |
| I2cWaveform.UnaddressedTransaction | overlay/i2c_snoop.v:148-201 | a transaction with other devices, with any number of repeated starts, changes nothing |
| I2cWaveform.AddressOnly | overlay/i2c_snoop.v:262-283 | a stop straight after the device address doubles the register address modulo 256 and changes nothing else |
| I2cWaveform.ResetThenIdle | overlay/i2c_snoop.v:205-212 | after reset and three clocks of a quiet bus the snooper is ready for the above |
| KeyMath.SumsExchange | firmware/km.c:82-118 | the key matrix selected by two vectors has one sum, by rows or by columns |
| KeyMath.AddRow | firmware/compute_ksv.c:423-432 | one row, or column, added to forty keys in place with the 56-bit mask |
| KeyMath.ComputeKeys | firmware/compute_ksv.c:396-437 | each key is the sum of the selected entries modulo 2^56 |
| KeyMath.SumOfRows | firmware/km.c:91-118 | selecting among masked keys gives, masked, the double sum |
| KeyMath.SelectKeys | firmware/km.c:91-103 | the masked sum of the keys whose bits are set |
| KeyMath.ReadKsv | firmware/km.c:72-80 | five registers read from the top down form the number they hold least significant first |
| KeyMath.SharedOfOneBit | firmware/compute_ksv.c:424-428 | with one bit in each vector Km is one key: the source's bit picks the row, the sink's the column |
| KeyMath.SharedAdds | firmware/km.c:91-118 | Km adds up over disjoint vectors on either side, so the row above settles it for every pair of vectors |
| KeyMath.BothSides | firmware/km.c:82-123 | for every matrix and every two 40-bit vectors source and sink compute the same Km |
| KeyMath.Csr.WriteKm | firmware/km.c:153-162 | the seven bytes written, read most significant first, are Km |
| KeyMath.Csr.DeriveKm | firmware/km.c:58-179 | it fails exactly when Km is zero, never for a mismatch, and then leaves the registers; otherwise they hold Km and it is marked valid |
| ClockSearch.GetClockMd | firmware/processor.c:373-398 | the nested loops with wrapped unsigned differences are the search below |
| ClockSearch.NoOverflow | firmware/processor.c:389-390 | no product or difference leaves 31 bits while the best divider fits its ideal |
| ClockSearch.TakenIsBounded | firmware/processor.c:391-394 | every divider the search takes fits its ideal |
| ClockSearch.SearchFindsBest | firmware/processor.c:373-398 | up to 17,417,294 it returns the first, in (d, m) order, of the candidates closest to the ideal multiplier |
| ClockSearch.BestIsReduced | firmware/processor.c:386-395 | that answer is in lowest terms unless reducing it would make the multiplier one |
| ClockSearch.OnlyTopIsBest | firmware/processor.c:386-395 | above 1,280,000 only 128/1 is closest |
| ClockSearch.SearchMissesAboveLimit | firmware/processor.c:389-394 | for every 32-bit ideal above 17,417,294 the wrapped differences lead it to something else |
| ClockSearch.SearchFindsBestIff | firmware/processor.c:373-398 | for every 32-bit ideal it returns the first closest candidate if and only if the ideal is at most 17,417,294 |
| PnData.DataStep | software/pcie/user/litepcie_util.c:22-31 | the data start at one, go up by 0x31415976 with the seed, modulo 2^32, and are always odd |
| PnData.DataDiffer | software/pcie/user/litepcie_util.c:22-31 | two seeds give the same word if and only if they differ by a multiple of 2^31 |
| PnData.WritePnData | software/pcie/user/litepcie_util.c:33-44 | word i is the data of the seed i later, and the seed moves past the buffer |
| PnData.CheckPnData | software/pcie/user/litepcie_util.c:47-63 | it counts the words that differ from the expected data, for any buffer |
| PnData.FindShift | software/pcie/user/litepcie_util.c:142-154 | the first of 256 shifts that at most half the words contradict, or none |
| PnData.WrongShiftHasOnlyErrors | software/pcie/user/litepcie_util.c:142-154 | every wrong shift contradicts every word |
| PnData.AlignmentIsFound | software/pcie/user/litepcie_util.c:142-154 | data from any seed less than 256 ahead are found at exactly that shift, without errors, the seed moved past the buffer |
| Edid.OrIsSum | firmware/edid.c:146-156 | packed fields that share no bit add up |
| Edid.TimingDecodes | firmware/edid.c:136-168 | twelve-bit sizes, the low sixteen bits of the clock and ten-bit horizontal sync fields decode back from the descriptor |
| Edid.VSyncDecodesIff | firmware/edid.c:154-156 | a reader gets the vertical sync offset back if and only if it is zero, and the width if and only if it is the offset modulo 16 |
| Edid.ImageDecodes | firmware/edid.c:158-162 | the image sizes of the descriptor read back |
| Edid.GenerateMonitorName | firmware/edid.c:170-185 | the name descriptor holds the first twelve characters, a newline and blanks, and nothing before it changes |
| Edid.ComputeChecksum | firmware/edid.c:85-95 | the value that makes all 128 bytes sum to zero modulo 256 |
| Edid.MakerDecodes | firmware/edid.c:205-209 | three capital letters come back from the two packed bytes |
| Edid.GenerateEdid | firmware/edid.c:195-248 | the 127 bytes in front of the checksum, maker packed, and a checksum that fits |
| Edid.ValidateEdid | firmware/edid.c:97-106 | accepts a block if and only if its header is right and its bytes sum to zero |
| Edid.CutLine | firmware/edid.c:129-133 | the buffer, as a C string, is cut at its first newline |
| Edid.GetMonitorName | firmware/edid.c:108-134 | for any block, the first line of its first name descriptor, or nothing |
| Edid.NameIsSecond | firmware/edid.c:117-125 | in a generated block the name descriptor is found if and only if the timing does not mimic one |
| Edid.GeneratedBlockReadsBack | firmware/edid.c:97-248 | every generated block validates and gives back maker letters and product code, and unless its timing mimics a name, a one-line name reads back as its first twelve characters |
| Edid.BaseDecodes | firmware/edid.c:211-245 | year, version 1.3, digital input, image sizes agreeing with the descriptor's, established timings, no standard timings, two dummy descriptors and no extension read back |

## Left out

- HdcpMod.AuthenticationDelivers: says nothing when a line ends just as the key write arrives, because the cipher then runs a plain initialisation; `HdcpMod.AksvStartsAuthentication` says when that is, and `HdcpMod.FlowDelivers` covers what it computes.
- HdcpMod.FlowDelivers: a key write, an unplug or a reset in the middle of an initialisation, because the controller promises nothing there.
- HdcpFrames.RunDelivers: line ends less than 57 clocks apart, because a rekey is then cut short; runs that end in the middle of an initialisation.
- HdcpKeystream.KeystreamFollowsInputs: ends where the controller takes up a new frame, which `HdcpFrames.RunDelivers` covers; pixels asked for sooner than 58 clocks after a line end get no round of their own.
- HdcpBlock.TermsAreDistinct: which seven bits each of the 24 output bits takes is written out in the model; beyond the rows on the output function no property of that choice is claimed.
- I2cWaveform.TransactionPlays: levels held for less than eleven samples, start and stop conditions in the middle of a byte, and repeated starts the snooper does not notice.
- I2cWaveform.AddressedRead: a master that refuses a byte and reads on, which the snooper takes for the end of the read.
- DelayController.MasterIsSafeIff: the bit time is constant during the run.
- DelayController.DelayUnit.Clock: the source's separate registers are fields of four records; the sample shifters, the comparison that yields `action` and `match`, and the data output are inputs or absent.
- Edid.GenerateEdid: characters of the maker above 127 are taken as unsigned.
- ClockSearch.GetClockMd: the absolute value of the most negative integer, which C leaves undefined, is taken as 2^31.
- BitTime.ComputeAutoBtVal: a reference clock other than 200, 300 or 400 MHz, for which the code returns an unset value, the duty-cycle variant that a constant switches off, and the register writes.
- KeyMath.Csr.DeriveKm: printing, the interrupt plumbing around it, and the constant key matrix, which is an arbitrary parameter.
- PnData.FindShift: the rest of the DMA loop; running out of shifts is a result, not an exit.
- State registers are datatypes, not one-hot words, so illegal encodings do not exist in the model; registers before the first reset are arbitrary only where a theorem says so.
- Asynchronous resets act at a clock edge; unit delays, metastability and the analogue delay lines are not modelled.
- In the controller, `active_line`, the hsync pipeline and `hdcp_requested` drive nothing and are absent.
- The phase aligner, the console, register plumbing, the kernel driver, the system wiring in Python and the build scripts.
