# ChappiLib chip drivers, modelled in Dafny

ChappiLib is a header-only C++ library of chip drivers. Each driver derives
from `chip_base`, which holds an injected transport: a register-read and a
register-write function, each returning an integer error code. A driver turns
typed calls (`set_output_power`, `get_bus_voltage`, `set_freq`, ...) into
register reads and writes through that transport. Every operation has two
forms:

- a raising form, which throws `runtime_error<int>` carrying the transport's
  code whenever the code is not 0;
- an error-code form, which wraps the raising one in a `helpers::noexcept_*`
  function and reports the code in an out-parameter.

This project models:

- **The framework** (`base.dfy`).
  - The transport is a pair of oracle functions of the transactions issued so
    far. Every call is recorded in a trace.
  - Faults are `Fail(BusError(code))`. The `noexcept_*` catch is `Catch`.
  - Sequences of raising writes and reads (`WriteAll`, `ReadAll`) stop at the
    first fault.
  - `chip_base` is a class whose transport and device address are
    replaceable.
  - The printable name `get_name` is modelled.
- **The change tracker** `registers_update` (`registers.dfy`): a class over a
  `seq` of register numbers, with `is_valid` computed in `size_t`.
- **The LMX2594 synthesizer** (`lmx2594.dfy`).
  - The 113-word register bank, its default table, the bit-fields of R0, R44,
    R45 and R72, and `get_SYSREF_DIV`.
  - The driver class: `reset` with its do-while sweep, the output
    enable/power setters and `is_output_enabled`.
- **The Si570/Si571 oscillator** (`si57x.dfy`).
  - The divider search of `_calculate_divider` as nested loops.
  - The register packing of `_make_freq_regs` and the two integer decoders.
  - The `set_freq`/`get_freq` loops over registers 7..18, and `reset`,
    `freeze_dco` and `apply_freq`.
- **The LTC6953 clock distributor** (`ltc6953.dfy`): the 7-byte bank, the
  `update_changes` drain loop over the tracker, `_update_registers`,
  `powerdown` and `is_vco_valid`.
- **The simple drivers**, each as functions from a bus state to the
  transactions issued, with raw integer codes:
  - INA219 (`ina219.dfy`)
  - LTC2991 (`ltc2991.dfy`)
  - TCA6424 (`tca6424.dfy`), and its older per-port version
    (`tca6424_legacy.dfy`)
  - ADN4600 (`adn4600.dfy`), and its older version (`adn4600_legacy.dfy`)
  - AD5621 (`ad5621.dfy`)

Integer widths are explicit throughout:

- `value_type` is `bv8` or `bv16`, and Si57x intermediates are `bv32`.
- Bytes stored from a wider expression are truncated.
- Register numbers are `size_t` with wrap-around.

## Model

| member | source | states |
|---|---|---|
| Base.BusWrite | include/chappi_base.h:233-242 | a write keeps the device, the width and both transport functions; only the trace grows |
| Base.WriteTransaction | include/chappi_base.h:233-242 | `write` calls the transport once with the stored device address, the register and the value, and appends that call to the trace; it raises exactly when the code is not 0, with that code |
| Base.BusRead | include/chappi_base.h:243-252 | `read` keeps the device and transport, and the value it returns fits the register width |
| Base.ReadTransaction | include/chappi_base.h:243-252 | `read` calls the transport once; the destination holds whatever the transport stored, even when the call raises; it raises exactly when the code is not 0, carrying that code |
| Base.WriteOnce | include/chappi_base.h:96-106 | a single raising write inside `noexcept_set_function` issues one transaction carrying the value unchanged, completes iff the code is 0, and reports the code verbatim |
| Base.ReportAgreesWithCatch | include/chappi_base.h:253-260 | the non-raising `write`/`read` return the transport's code verbatim, issue the same transaction as the raising form, and report what the raising form caught would |
| Base.CatchReportsNoErrorIffPass | include/chappi_base.h:67-121 | every `noexcept_*` helper reports NoerrorValue exactly when the wrapped call completed and the carried code when it raised `runtime_error<int>`; any other exception terminates |
| Base.WriteAll | include/chappi_si57x.h:118-122 | a sequence of raising writes completes at most the planned number of writes, all of them when it passes, and leaves device and transport unchanged |
| Base.WriteAllTrace | include/chappi_si57x.h:118-122 | a write loop issues the planned writes in order, each to the bus's device, until the first one whose code is not 0; that one is the last, and it is the fault raised |
| Base.WriteAllConcat | include/chappi_lmx2594.h:1283-1293 | two groups of writes in straight-line code: the second starts only if the first completed, and their counts add up |
| Base.WriteAllStops | include/chappi_si57x.h:119-121 | after a write raises, no later write of the plan is issued |
| Base.ReadAll | include/chappi_si57x.h:133-137 | a sequence of raising reads returns one value per completed read, all of them when it passes |
| Base.ReadAllTrace | include/chappi_si57x.h:133-137 | a read loop issues the planned reads in order until the first fault, and each value returned is what its read left |
| Base.ReadAllConcat | include/chappi_ltc2991.h:196-206 | two groups of reads issued one after the other: the second starts only if the first completed, and the values concatenate |
| Base.ReadAllStops | include/chappi_si57x.h:134-136 | after a read raises, no later read of the plan is issued |
| Base.ChipBase.constructor | include/chappi_base.h:204-210 | the base starts with the given transport functions and device address and an empty trace |
| Base.ChipBase.Write | include/chappi_base.h:233-242 | the object's state after `write` is the bus after one raising write |
| Base.ChipBase.Read | include/chappi_base.h:243-252 | the object's state and the value after `read` are those of one raising read |
| Base.ChipBase.WriteReport | include/chappi_base.h:253-256 | the non-raising `write` returns the code and records the transaction |
| Base.ChipBase.ReadReport | include/chappi_base.h:257-260 | the non-raising `read` returns the code and the value and records the transaction |
| Base.ChipBase.SetupIo | include/chappi_base.h:261-266 | `setup_io` replaces both transport functions and the device address and nothing else |
| Base.ChipBase.SetDevAddr | include/chappi_base.h:267-268 | `set_dev_addr` changes only the device address, which `get_dev_addr` then returns |
| Base.Decimal | include/chappi_base.h:216 | `std::to_string` of a non-negative number is a non-empty string of digits |
| Base.DecimalRoundTrip | include/chappi_base.h:216 | the decimal string parses back to the number and has no leading zero |
| Base.Name | include/chappi_base.h:212-218 | the name starts with the chip name and a dash and has at least one more character |
| Base.NameRecoversNumber | include/chappi_base.h:212-218 | what follows the dash is the instance number in decimal (with a minus sign when negative), and `count` has no effect |
| Registers.ValidMeansBelowMax | include/chappi_register.h:89-94 | `is_valid(n)` holds exactly when n < register_max_num (the `< 0` test is vacuous); with register_max_num 0 every number passes |
| Registers.Without | include/chappi_register.h:121 | `remove(n)` leaves no copy of n, keeps every other number, and shortens the list when n was there |
| Registers.WithoutCounts | include/chappi_register.h:121 | removing n keeps the count of every other number |
| Registers.WithoutConcat | include/chappi_register.h:121 | removal works element by element: removing from a concatenation removes from each part, so the relative order of the rest is kept |
| Registers.WithoutAbsent | include/chappi_register.h:121 | removing a number that is not pending leaves the list unchanged |
| Registers.ValidPrefix | include/chappi_register.h:108-115 | counts the leading valid arguments: all before it are valid and the one at it is not |
| Registers.MarkPushesValidPrefix | include/chappi_register.h:108-115 | `set_changed(a1..ak)` pushes exactly the valid leading arguments, the last of them ending at the front, and returns true iff every argument was valid |
| Registers.MarkCounts | include/chappi_register.h:112 | there is no de-duplication: each pushed number's count grows by one per push |
| Registers.RegistersUpdate.constructor | include/chappi_register.h:84-87 | the tracker starts empty |
| Registers.RegistersUpdate.IsChanged | include/chappi_register.h:95-105 | `is_changed(n)` is true iff n is valid and pending |
| Registers.RegistersUpdate.IsAnyChanged | include/chappi_register.h:106 | `is_changed()` is true iff something is pending |
| Registers.RegistersUpdate.SetChanged | include/chappi_register.h:107-115 | the loop leaves the list and the result that `set_changed`'s recursion defines, and only valid numbers are ever pending |
| Registers.RegistersUpdate.GetChanged | include/chappi_register.h:116 | on a non-empty list, `get_changed` returns the front, a valid pending number |
| Registers.RegistersUpdate.ClearChanged | include/chappi_register.h:117-123 | `clear_changed(n)` returns true iff n is valid; it then removes every copy of n and otherwise leaves the list unchanged |
| Lmx2594.RangesPartitionBank | include/chappi_lmx2594.h:1029-1033 | the bank has 113 registers, and the ranges [0,78], [79,106] and [107,112] are disjoint and cover exactly R0..R112 |
| Lmx2594.OutPdCast | include/chappi_lmx2594.h:883-886 | `enum_cast` of OUT_PD_type gives a one-bit value |
| Lmx2594.OutPdOf | include/chappi_lmx2594.h:888-891 | `enum_cast` back from a one-bit field is the inverse of the cast to it |
| Lmx2594.OutPdCastRoundTrip | include/chappi_lmx2594.h:883-891 | casting OUT_PD_type to the register type and back is the identity |
| Lmx2594.DefaultFields | include/chappi_lmx2594.h:1039-1230 | with LSB-first bit-fields, the defaults give R0 = 0x2410, R44 = 0x1FA0 (MASH_RESET_N 1, OUTA active, OUTB powered down, OUTA_PWR 31), R45 = 0xC8C0 and R72 = 0 |
| Lmx2594.SysrefDiv | include/chappi_lmx2594.h:583-595 | the code is below 2048: 0 below 4, 2047 above 4098, and otherwise the largest r with 2r + 4 <= d |
| Lmx2594.SysrefDivExact | include/chappi_lmx2594.h:583-595 | every even divisor in 4..4098 is encoded exactly, and the encoding is monotone |
| Lmx2594.SysrefDivFitsField | include/chappi_lmx2594.h:597-598 | the code always survives storing in R72's 11-bit SYSREF_DIV field |
| Lmx2594.GetSetSysrefDiv | include/chappi_lmx2594.h:597-598 | reading SYSREF_DIV after assigning it gives the value truncated to 11 bits |
| Lmx2594.GetPd | include/chappi_lmx2594.h:451-452 | the selected output's PD field is one bit |
| Lmx2594.EnableWordEffect | include/chappi_lmx2594.h:1299-1310 | `set_output_enabled` changes only R44 bit 6 (OUTA) or bit 7 (OUTB), to 0 when enabling and 1 when disabling; the setting reads back, and the other output's setting is kept |
| Lmx2594.PowerWordEffect | include/chappi_lmx2594.h:1348-1359 | `set_output_power` stores power mod 64 in R44 bits 8..13 (OUTA) or R45 bits 0..5 (OUTB) and keeps every other bit of that register |
| Lmx2594.Descending | include/chappi_lmx2594.h:1287-1290 | the do-while visits n, n-1, ..., 1 |
| Lmx2594.SweepAsWrittenLeavesBank | include/chappi_lmx2594.h:1287-1289 | as written, the sweep's first index is 113, one past the 113-word bank |
| Lmx2594.SweepCoversBank | include/chappi_lmx2594.h:1287-1290 | the corrected sweep stays in the bank and visits every register but R0 exactly once, in descending order |
| Lmx2594.ResetR0Words | include/chappi_lmx2594.h:1283-1292 | reset's three R0 words: RESET set; then RESET cleared; then FCAL_EN set with RESET still clear; each keeps the other bits of R0 |
| Lmx2594.SweepPlan | include/chappi_lmx2594.h:1287-1290 | the sweep issues one write per register from R112 down to R1 |
| Lmx2594.ResetPlan | include/chappi_lmx2594.h:1280-1294 | reset issues 115 writes |
| Lmx2594.ResetPlanShape | include/chappi_lmx2594.h:1280-1294 | reset writes R0 first, second and last, and in between every register Rn (n from 112 down to 1) with its value in memory |
| Lmx2594.ResetFromDefaults | include/chappi_lmx2594.h:1283-1293 | from the defaults, the R0 words written are 0x2412, 0x2410 and 0x2418 |
| Lmx2594.ResetRunStages | include/chappi_lmx2594.h:1280-1294 | reset's writes run in four stages, each starting only if the previous one completed, and the count of completed writes follows |
| Lmx2594.Lmx2594.constructor | include/chappi_lmx2594.h:1268-1273 | the driver starts with the default bank and no transport: the arguments are not passed to the base |
| Lmx2594.Lmx2594.Reset | include/chappi_lmx2594.h:1280-1294 | reset's transactions are the reset plan up to its first fault, and only R0 of the bank changes, to the word of the last stage reached |
| Lmx2594.Lmx2594.WriteSweep | include/chappi_lmx2594.h:1287-1290 | the do-while loop issues the sweep's writes up to the first fault |
| Lmx2594.Lmx2594.ResetReport | include/chappi_lmx2594.h:1295-1298 | `reset(error)` has the same effects and reports the fault's code |
| Lmx2594.Lmx2594.SetOutputEnabled | include/chappi_lmx2594.h:1299-1310 | only R44 changes in memory, and it is written once to address 44 |
| Lmx2594.Lmx2594.SetOutputEnabledReport | include/chappi_lmx2594.h:1311-1316 | the error-code form has the same effects and reports the write's code (the evident intent of an overload that is ill-formed as written; see Left out) |
| Lmx2594.Lmx2594.IsOutputEnabled | include/chappi_lmx2594.h:1317-1338 | R44 in memory is overwritten by the read of address 44, even when the read fails; the answer is true iff the read completed and the selected PD bit is 0 |
| Lmx2594.Lmx2594.IsOutputEnabledReport | include/chappi_lmx2594.h:1339-1347 | the error-code form reports the read's code and returns false when the read failed (the evident intent of an overload that is ill-formed as written; see Left out) |
| Lmx2594.Lmx2594.SetOutputPower | include/chappi_lmx2594.h:1348-1359 | only the selected output's power register changes, and only it is written, to address 44 or 45 |
| Lmx2594.Lmx2594.SetOutputPowerReport | include/chappi_lmx2594.h:1360-1365 | the error-code form has the same effects and reports the write's code (the evident intent of an overload that is ill-formed as written; see Left out) |
| Lmx2594.Lmx2594.SetOutputFrequency | include/chappi_lmx2594.h:1366-1388 | `set_output_frequency` issues no transaction and leaves the bank alone; its error-code form reports no error (the evident intent of an overload that is ill-formed as written; see Left out) |
| Si57x.Candidate | include/chappi_si57x.h:236-247 | the search tries N1 in the outer loop and HS_DIV in the inner loop, both ascending |
| Si57x.CandidateSelectable | include/chappi_si57x.h:232-247 | every candidate has HS_DIV in {4,5,6,7,9,11} and an even N1 in 2..128 |
| Si57x.CandidateAt | include/chappi_si57x.h:240-243 | the m-th even N1's six candidates are consecutive, one per HS_DIV |
| Si57x.Dcos | include/chappi_si57x.h:243 | the DCO frequency of each candidate, in search order |
| Si57x.Best | include/chappi_si57x.h:233-250 | the running choice after k candidates is one of them |
| Si57x.BestIsChosen | include/chappi_si57x.h:233-250 | the search finds nothing iff no candidate is in band; otherwise it picks the in-band candidate with the smallest DCO frequency, the later one on a tie |
| Si57x.ChosenUnique | include/chappi_si57x.h:233-250 | that choice is unique |
| Si57x.DividerChoice | include/chappi_si57x.h:223-254 | the pair is (4, 1) from 1 212 500 000 Hz up, with no upper limit, and (5, 1) from 970 000 000 Hz; below that it is the search's choice, and none iff no pair puts the DCO in band |
| Si57x.NoDividerInGap | include/chappi_si57x.h:230-254 | every target strictly between 708 750 000 and 970 000 000 Hz has no divider pair |
| Si57x.CalculateDivider | include/chappi_si57x.h:218-254 | `_calculate_divider` returns the pair `DividerChoice` describes |
| Si57x.SearchDivider | include/chappi_si57x.h:230-254 | the nested loops end with the search's choice, or none |
| Si57x.SearchHsDivs | include/chappi_si57x.h:240-249 | the inner loop over HS_DIV keeps the running state in step with the running choice |
| Si57x.Pack | include/chappi_si57x.h:205-215 | `_make_freq_regs` fills all twelve registers 7..18 |
| Si57x.FreqBytes | include/chappi_si57x.h:205-215 | the packing yields six bytes |
| Si57x.Mirrored | include/chappi_si57x.h:205-215 | registers 13..18 follow 7..12 |
| Si57x.PackMirrors | include/chappi_si57x.h:205-215 | registers 13..18 hold the same bytes as 7..12 |
| Si57x.PackRoundTrip | include/chappi_si57x.h:264-272 | unpacking what was packed gives back HS_DIV, N1, RFREQ's integer part and RFREQ's fraction, whenever each fits its 3, 7, 10 or 28 bits |
| Si57x.SelectedAreSelectable | include/chappi_si57x.h:223-250 | every pair the selection produces is a valid HS_DIV with N1 = 1 or an even N1 in 2..128 |
| Si57x.DecodeRecoversHs | include/chappi_si57x.h:276 | the HS_DIV field (hs - 4) fits 3 bits and `_calculate_freq` decodes it back to hs |
| Si57x.DecodeRecoversN1 | include/chappi_si57x.h:277 | the N1 field (n1 - 1) fits 7 bits and `_calculate_freq` decodes it back to n1, for every pair the selection produces |
| Si57x.FxtalN1AsWrittenDisagrees | include/chappi_si57x.h:185 | as written, `_calculate_fxtal` decodes the N1 field of N1 = 1 to 0 and that of N1 = 2 to 1; it agrees with `_calculate_freq` only for fields of 2 and above |
| Si57x.FxtalN1RecoversDivider | include/chappi_si57x.h:185 | corrected, `_calculate_fxtal` reuses `_calculate_freq`'s decoder `DecodeN1`, which recovers every selectable N1; the decoder as written recovers exactly the N1 above 2 |
| Si57x.Clamped | include/chappi_si57x.h:193-195 | targets below 10 MHz are raised to 10 MHz; others are kept |
| Si57x.FreqRegs | include/chappi_si57x.h:191-217 | when a pair is found, `_make_freq_regs` yields twelve register values |
| Si57x.FreqRegsHs | include/chappi_si57x.h:191-217 | the registers of a solvable target decode to the selected HS_DIV |
| Si57x.FreqRegsN1 | include/chappi_si57x.h:191-217 | the registers of a solvable target decode to the selected N1 |
| Si57x.FreqRegsRfreq | include/chappi_si57x.h:205-215 | the registers of a solvable target hold its RFREQ parts, and 13..18 repeat 7..12 |
| Si57x.FreqPlan | include/chappi_si57x.h:118-122 | `set_freq` writes register i's value to address 7 + i, ascending |
| Si57x.FreqAddrs | include/chappi_si57x.h:133-137 | `get_freq` reads addresses 7..18 ascending |
| Si57x.RegsOf | include/chappi_si57x.h:134-135 | each value read is stored as its low byte |
| Si57x.SetFreqUnsolvable | include/chappi_si57x.h:113-117 | an unsolvable target raises before any write, with an exception the error-code form cannot catch |
| Si57x.Si57x.constructor | include/chappi_si57x.h:60-67 | the driver starts without a transport: the arguments are not passed on |
| Si57x.Si57x.Reset | include/chappi_si57x.h:78-83 | `reset` writes 0x80 to register 135 |
| Si57x.Si57x.FreezeDco | include/chappi_si57x.h:88-93 | `freeze_dco` writes 0x10 (freeze) or 0x00 to register 137 |
| Si57x.Si57x.ApplyFreq | include/chappi_si57x.h:98-103 | `apply_freq` writes 0x40 to register 135 |
| Si57x.Si57x.MakeFreqRegs | include/chappi_si57x.h:191-217 | succeeds iff a pair is found; it then fills the registers with the packed fields, and otherwise leaves them untouched |
| Si57x.Si57x.StoreFreqRegs | include/chappi_si57x.h:205-215 | each of registers 7..12 and its mirror get the same byte |
| Si57x.Si57x.SetFreq | include/chappi_si57x.h:108-123 | `set_freq` raises before any transaction when unsolvable, and otherwise writes the twelve registers up to the first fault |
| Si57x.Si57x.WriteFreqRegs | include/chappi_si57x.h:118-122 | the write loop issues the twelve writes in ascending order up to the first fault |
| Si57x.Si57x.SetFreqReport | include/chappi_si57x.h:124-127 | the error-code form has the same effects and reports the fault |
| Si57x.Si57x.GetFreq | include/chappi_si57x.h:128-139 | `get_freq` reads 7..18 up to the first fault; when all reads complete, the fields are those decoded from the bytes read |
| Si57x.Si57x.ReadFreqRegs | include/chappi_si57x.h:132-137 | the read loop stores each value read, in ascending address order |
| Ltc6953.DefaultBank | include/chappi_ltc6953.h:102-134 | the bank is 7 bytes (h00, h02, h06..h0A, ascending) with VCOOK and PDALL clear by default |
| Ltc6953.PowerdownByte | include/chappi_ltc6953.h:219 | PDALL (bit 7) of h02 becomes the flag, and the other seven bits stay |
| Ltc6953.Order | include/chappi_ltc6953.h:196-200 | the slots are drained in order of first occurrence from the front, each distinct pending slot exactly once |
| Ltc6953.RemainingOrder | include/chappi_ltc6953.h:196-200 | after k rounds, the slots still pending are drained in the same order |
| Ltc6953.DrainRounds | include/chappi_ltc6953.h:196-200 | the tracker is empty exactly after as many rounds as there are distinct slots; round k writes the k-th slot; the slots not yet written stay pending |
| Ltc6953.DrainStep | include/chappi_ltc6953.h:197-199 | one round takes the front slot, writes its byte, and clears every copy of it |
| Ltc6953.SlotPlan | include/chappi_ltc6953.h:247-252 | `_update_registers` issues one write per argument |
| Ltc6953.SlotPlanAt | include/chappi_ltc6953.h:249 | each argument's slot is written to the bus address equal to its slot number, with its byte |
| Ltc6953.DrainPlan | include/chappi_ltc6953.h:196-200 | `update_changes` issues one write per distinct pending slot |
| Ltc6953.SlotOneGoesToAddressOne | include/chappi_ltc6953.h:198 | as written, slot 1 (a copy of h02) is written to bus address 1, not 0x02 |
| Ltc6953.ChipPlan | include/chappi_ltc6953.h:102-110 | a register-addressed alternative to `_update_registers` writes one byte per slot listed |
| Ltc6953.ChipDrainPlan | include/chappi_ltc6953.h:102-110 | the register-addressed alternative drain writes one byte per distinct pending slot |
| Ltc6953.ChipPlanAddresses | include/chappi_ltc6953.h:102-110 | the register-addressed alternative drain sends each slot's byte to its own chip register, different slots to different registers, and slot 1 to h02 |
| Ltc6953.Ltc6953.constructor | include/chappi_ltc6953.h:173-180 | this driver passes its transport and device address to the base; the bank starts at the defaults and nothing is pending |
| Ltc6953.Ltc6953.PendingInBank | include/chappi_register.h:109-112 | only valid slot numbers are ever pending |
| Ltc6953.Ltc6953.UpdateChanges | include/chappi_ltc6953.h:191-201 | `update_changes` issues the drain plan up to the first fault; what stays pending is the tracker after the rounds that completed, so the failing slot and every unwritten slot stay pending |
| Ltc6953.Ltc6953.DrainRound | include/chappi_ltc6953.h:197-199 | one loop iteration adds one write to the plan's run, and clears the slot only if its write completed |
| Ltc6953.Ltc6953.UpdateRegisters | include/chappi_ltc6953.h:247-252 | `_update_registers(n1..nk)` writes each slot in argument order, up to the first fault |
| Ltc6953.Ltc6953.Reset | include/chappi_ltc6953.h:202-208 | `reset` does nothing and completes |
| Ltc6953.Ltc6953.ResetReport | include/chappi_ltc6953.h:209-212 | the error-code form reports no error |
| Ltc6953.Ltc6953.Powerdown | include/chappi_ltc6953.h:214-221 | only h02 changes in memory, and it is written to address 0x02 |
| Ltc6953.Ltc6953.PowerdownReport | include/chappi_ltc6953.h:222-225 | the error-code form has the same effects and reports the write's code (the evident intent of an overload that is ill-formed as written; see Left out) |
| Ltc6953.Ltc6953.IsVcoValid | include/chappi_ltc6953.h:227-239 | h00 in memory is overwritten by a read of address 0, even when the read fails; the answer is its VCOOK bit |
| Ltc6953.Ltc6953.IsVcoValidReport | include/chappi_ltc6953.h:240-244 | the error-code form reports the read's code |
| Ina219.WithReset | include/chappi_ina219.h:85 | RST (bit 15) is set and every other bit is kept |
| Ina219.ShuntCode | include/chappi_ina219.h:98 | the shunt code is at most 16383, and with the two dropped bits it gives back the register |
| Ina219.BusCode | include/chappi_ina219.h:116 | the bus code is at most 8191, and shifted back it is the register without its three status bits |
| Ina219.Get | include/chappi_ina219.h:92-99 | a getter yields a code exactly when its read completed, within the field's range |
| Ina219.ConfigureWritesValue | include/chappi_ina219.h:69-78 | `configure` writes its value unchanged to 0x00, once, and the error-code form reports the code |
| Ina219.ResetReadModifyWrite | include/chappi_ina219.h:79-91 | `reset` reads 0x00 and writes back the value with bit 15 set; if the read fails, nothing is written and the read's code is reported |
| Ina219.ShuntVoltageReads | include/chappi_ina219.h:92-104 | `get_shunt_voltage` reads 0x01 once and returns its low 14 bits when the read completed |
| Ina219.BusVoltageReads | include/chappi_ina219.h:110-122 | `get_bus_voltage` reads 0x02 once and returns bits 3..15 when the read completed |
| Ltc2991.AllChannelsOn | include/chappi_ltc2991.h:78 | bits 3..7 are set and bits 0..2 kept |
| Ltc2991.WithRepeated | include/chappi_ltc2991.h:88-92 | bit 4 is set iff `enable`, and every other bit is kept |
| Ltc2991.TemperatureCode | include/chappi_ltc2991.h:104 | the temperature code is below 2^13 |
| Ltc2991.VoltageCode | include/chappi_ltc2991.h:222 | the voltage code is below 2^14, so never above 16383 |
| Ltc2991.CodesRecoverBytes | include/chappi_ltc2991.h:218-223 | the codes give back the masked MSB and the LSB they are made of |
| Ltc2991.VoltageAddr | include/chappi_ltc2991.h:116-186 | channel k's MSB address is even and within 0x0A..0x18 |
| Ltc2991.ReadPair | include/chappi_ltc2991.h:218-223 | a getter yields a code exactly when both reads completed, within the code's range |
| Ltc2991.Channels | include/chappi_ltc2991.h:198-205 | when they all complete, the channel getters yield one code per channel |
| Ltc2991.GetData | include/chappi_ltc2991.h:196-206 | `get_data` yields data exactly when every getter completed: a 13-bit temperature and eight voltages |
| Ltc2991.DataAddrs | include/chappi_ltc2991.h:196-206 | `get_data` reads two addresses per value |
| Ltc2991.PairCodes | include/chappi_ltc2991.h:222 | one voltage code per pair of bytes |
| Ltc2991.DataAddrsOrder | include/chappi_ltc2991.h:196-206 | `get_data` reads 0x1A and 0x1B, then the MSB and LSB of V1, V2, ... V8 |
| Ltc2991.ChannelsAreOneReadSequence | include/chappi_ltc2991.h:198-205 | the channel getters one after another are one read sequence over their addresses |
| Ltc2991.GetDataIsOneReadSequence | include/chappi_ltc2991.h:196-206 | `get_data` is one read sequence over 0x1A, 0x1B, 0x0A..0x19 that stops at the first fault; the temperature comes from the first two values and V1..V8 from the pairs after them |
| Ltc2991.EnableAllChannelsWrites | include/chappi_ltc2991.h:75-84 | `enable_all_channels` reads 0x01 and writes back the byte with bits 3..7 set and bits 0..2 kept; a failed read means no write, and the error-code form reports the code |
| Ltc2991.RepeatedModeWrites | include/chappi_ltc2991.h:85-99 | `repeated_mode(e)` reads 0x08 and writes back the byte with bit 4 equal to e; a failed read means no write |
| Ltc2991.UpdateWrites | include/chappi_ltc2991.h:76-79 | a read-modify-write on a zeroed local: one read, then one write of the changed byte to the same address only if the read completed |
| Ltc2991.TemperatureReads | include/chappi_ltc2991.h:100-105 | `get_temperature` reads 0x1A then 0x1B and returns the code of the bytes read |
| Ltc2991.VoltageReads | include/chappi_ltc2991.h:218-223 | channel k reads 0x0A + 2(k - 1), then the next address, and returns the code of the bytes read |
| Tca6424.Port.Index | include/chappi_tca6424.h:32 | the port index is 0, 1 or 2 |
| Tca6424.OutputAddr | include/chappi_tca6424.h:92 | output addresses lie within 0x04..0x06 |
| Tca6424.ConfigAddr | include/chappi_tca6424.h:80 | configuration addresses lie within 0x0C..0x0E |
| Tca6424.AddressesDistinct | include/chappi_tca6424.h:76-104 | each port has its own output and configuration register, and the two ranges do not meet |
| Tca6424.GetPort | include/chappi_tca6424.h:106-111 | `get_port` returns the byte the read left in the zeroed record |
| Tca6424.WriteByte | include/chappi_tca6424.h:80 | a byte written on the 8-bit bus goes out unchanged, and the code is reported verbatim |
| Tca6424.ConfigurePortWrites | include/chappi_tca6424.h:76-87 | `configure_port` writes its value unchanged to 0x0C + port, and the error-code form reports the code (the evident intent of an overload that is ill-formed as written; see Left out) |
| Tca6424.SetPortWrites | include/chappi_tca6424.h:88-99 | `set_port` writes its value unchanged to 0x04 + port, and the error-code form reports the code (the evident intent of an overload that is ill-formed as written; see Left out) |
| Tca6424.GetPortReads | include/chappi_tca6424.h:100-119 | `get_port` reads 0x04 + port once and returns the byte read, and the error-code form reports the code |
| Tca6424Legacy.PortOf | TCA6424/tca6424.h:63-129 | the per-port method N corresponds to port N |
| Tca6424Legacy.AgreesWithPortDriver | TCA6424/tca6424.h:63-110 | `configure_port_N` writes to 0x0C + N, `set_port_N` to 0x04 + N, and `get_port_N` reads 0x04 + N, with the same transactions as the port-argument driver |
| Tca6424Legacy.GetPort1ReportReadsPort2 | TCA6424/tca6424.h:110-119 | as written, the raising `get_port_1` reads 0x05 but its error-code form reads 0x06 |
| Tca6424Legacy.GetPortReportMatchesRaising | TCA6424/tca6424.h:100-129 | corrected, every error-code `get_port_N` reads 0x04 + N as the raising form does, returns the same byte and reports the code |
| Tca6424Legacy.WritesReportCode | TCA6424/tca6424.h:63-99 | each `configure_port_N`/`set_port_N` writes its byte unchanged, and the error-code form reports the code |
| Adn4600.XptValue | include/chappi_adn4600.h:86-87 | the packed value is at most 0x77, with bit 3 and bits 7..15 clear |
| Adn4600.XptValueDecodes | include/chappi_adn4600.h:87 | (v >> 4) & 7 and v & 7 recover the input and the output mod 8 |
| Adn4600.XptValueInjectiveModEight | include/chappi_adn4600.h:87 | two selections pack alike iff they agree mod 8 |
| Adn4600.OperationsWrite | include/chappi_adn4600.h:72-105 | `reset` writes 0x01 to 0x00, `xpt_config` the packed value to 0x40 and `xpt_update` 0x01 to 0x41, each once; the error-code forms report the code (for `xpt_config`, the evident intent of an overload that is ill-formed as written; see Left out) |
| Adn4600Legacy.AgreesWithCurrentDriver | ADN4600/adn4600.h:63-76 | the older driver issues the same writes as the current one, and its packed value is at most 0x77 with bits 3 and 7 clear |
| Ad5621.Word | include/chappi_ad5621.h:63 | the word is the value times 4 mod 2^16: its low two bits are 0 and the top two input bits are lost |
| Ad5621.WordRecoversValue | include/chappi_ad5621.h:63 | below 2^14 the word shifted right gives the value back; above it only the low 14 bits matter |
| Ad5621.SetValueWrites | include/chappi_ad5621.h:63-67 | `set_value` issues exactly one write, of the word, to 0x00, and the error-code form reports the code |

## Left out

- **Floating point.** Left out:
  - the RFREQ computation and truncation in `_calculate_divider` (include/chappi_si57x.h:255-258), which becomes an input function of the target and the pair (`RfreqFn`);
  - the crystal solve of `_calculate_fxtal` and `calib_fxtal`;
  - the frequency formula of `_calculate_freq`, which `get_freq` returns as the decoded integer fields;
  - the LTC2991 scale factors (/16.0 and ×0.000305180), so the getters return raw codes.

  Si57x frequencies are whole hertz. For such targets every product the divider search compares is exact in a double.
- **Logging.** `logstream`, `log_info` and every trace written to the log stream: stream output with no effect on the chip.
- **Instance counting.** `chips_counter`, `get_num` and `get_counts`: bookkeeping. `Base.Name` takes the instance number as an argument.
- **The 10 ms sleep** in LMX2594 `reset`: timing only, with no effect on the transactions.
- **The transport bodies.** The `std::function` transports become oracles over the transaction history. An empty one raises `std::bad_function_call`, which the `noexcept_*` helpers do not catch (`Terminated`). The template error policy is fixed at `int` with 0 as NoerrorValue.
- **Ill-formed error-code overloads.** The following members model the evident intent of an error-code overload that does not match the `helpers::noexcept_*` templates of include/chappi_base.h:64-106 and so cannot be instantiated as written. The model does not capture that these overloads fail to compile.
  - Lmx2594.Lmx2594.SetOutputEnabledReport: include/chappi_lmx2594.h:1313-1315 passes three template arguments before the member pointer where four are required, so the pointer lands in the `SetType` slot.
  - Lmx2594.Lmx2594.SetOutputPowerReport: the same mismatch at include/chappi_lmx2594.h:1362-1364.
  - Lmx2594.Lmx2594.SetOutputFrequency: its error-code form has the same mismatch at include/chappi_lmx2594.h:1385-1387.
  - Lmx2594.Lmx2594.IsOutputEnabledReport: include/chappi_lmx2594.h:1343-1345 names `lmx2594_output` as GetType for a getter taking `lmx2594_output_enable&`.
  - Ltc6953.Ltc6953.PowerdownReport: the SetType argument is missing at include/chappi_ltc6953.h:223-224.
  - Tca6424.ConfigurePortWrites: include/chappi_tca6424.h:84-86 passes a getter taking `const tca6424_port_data&` where `base_set_functor` takes the value by copy.
  - Tca6424.SetPortWrites: the same mismatch at include/chappi_tca6424.h:96-98.
  - Adn4600.OperationsWrite: its `xpt_config` error-code half has the same mismatch at include/chappi_adn4600.h:92-94. Its `reset` and `xpt_update` halves use `noexcept_void_function`, which matches.
- **The simple drivers' constructors.** They are not modelled. The functions of `Ltc2991`, `Tca6424`, `Tca6424Legacy`, `Adn4600Legacy` and `Ad5621` take the bus as `setup_io` leaves it. The constructors at include/chappi_ltc2991.h:63-68, include/chappi_tca6424.h:58-61, include/chappi_ad5621.h:51-56, TCA6424/tca6424.h:51-56 and ADN4600/adn4600.h:51-56 accept `reg_read` and `reg_write` but pass only `buf_ptr` to `chip_base`. A driver built that way has no transport until `setup_io`, and every call raises `std::bad_function_call` until then (`Terminated` in the error-code forms). The INA219 and current ADN4600 constructors pass the transport on.
- **Undefined helpers.** `helpers::retval_get_function`, `log_created` and `log_destroyed` are not defined by include/chappi_base.h. The value-returning getters that use them are modelled as the raising getter they wrap.
- **The error-code `calib_fxtal`.** It dispatches to `freeze_dco` with a mismatched argument type. It is left out together with the rest of the crystal calibration.
- **Uninitialised results.** `noexcept_get_function` returns an uninitialised local when the wrapped getter raises.
  - The INA219 getters return `None` in that case.
  - The legacy TCA6424 getters take the local's prior contents as a parameter (`dest`).
  - Ltc6953.Ltc6953.IsVcoValidReport: returns false on a failed read, where the source returns an uninitialised `bool`.
- **The `set_fxtal`/`get_fxtal` field.** It holds the crystal frequency, which only feeds the floating-point computations above.
- **Unused LMX2594 fields.** The accessors of R1..R112 other than R44, R45 and R72 are left out. Their words are in the default table.
- **Register layouts not used by an operation.** The LMX2594 default table is derived from the bit-field declarations with LSB-first allocation. Only the fields of R0, R44, R45 and R72 are stated. Likewise, only the LTC6953 fields VCOOK and PDALL are stated.
- **hmc987.** The file is not part of this model.
- **Destructors and `log_set_enabled`/`log_is_enabled`.** Logging only.

## Findings

| source | as written | input that shows it | evidently intended | confidence | as-written member | corrected member |
|---|---|---|---|---|---|---|
| include/chappi_lmx2594.h:1287-1289 | the reset sweep starts at `register_max_num` (113) and reads `registers_map.array[113]`, one past the 113-word bank | any call to `reset()` | sweep R112 down to R1 | high, not executed | Lmx2594.SweepAsWrittenLeavesBank | Lmx2594.SweepCoversBank |
| include/chappi_si57x.h:185 | `_calculate_fxtal` decodes N1 as `n1 == 1 ? 1 : (n1 + 1) & 0xFE`, so field 0 (N1 = 1) decodes to 0 and field 1 (N1 = 2) to 1 | calibrating against registers programmed for any target from 970 MHz up (N1 = 1): the crystal frequency comes out as 0 | decode field 0 to 1, as `_calculate_freq` does at line 277 | high, not executed | Si57x.FxtalN1AsWrittenDisagrees | Si57x.FxtalN1RecoversDivider |
| TCA6424/tca6424.h:115-119 | the error-code `get_port_1` wraps `get_port_2` | `get_port_1(error)` reads register 0x06 while `get_port_1()` reads 0x05 | wrap `get_port_1` | high, not executed | Tca6424Legacy.GetPort1ReportReadsPort2 | Tca6424Legacy.GetPortReportMatchesRaising |

The LMX2594 driver class sweeps R112 down to R1 (`Lmx2594.Sweep`), as the
corrected member of the first row intends. The crystal calibration is left out
(floating point), so the second row's correction is stated on the decoder alone.

The LTC6953 driver writes bank slot i to bus address i in both
`update_changes` and `_update_registers`. The bank holds copies of the sparse
registers h00, h02 and h06..h0A, so slot 1 (h02) goes to address 1. Its own
`powerdown` writes the same byte to 0x02.

- The driver class keeps the slot number as the bus address, as written
  (`Ltc6953.SlotOneGoesToAddressOne`).
- `Ltc6953.ChipDrainPlan` and `Ltc6953.ChipPlanAddresses` state the
  register-addressed alternative beside it.
