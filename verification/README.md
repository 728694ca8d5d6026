# Kovan audio path: PXA3xx SSP DAI, ES8328 codec, FPGA minor numbers

This project models, in Dafny, three pieces of the Kovan board's kernel code.
Each callback is a pure function from (state, request) to (status, new state).

- **PXA3xx SSP CPU DAI** (`sound/soc/pxa/pxa3xx-ssp.c`). A unit is modelled by:
  - its five memory-mapped registers (SSCR0, SSCR1, SSPSP, SSACD, SSSR);
  - a trace of every register write, oldest first;
  - the format family stored by `set_dai_fmt`;
  - the DMA descriptor of each substream.

  The model covers `set_dai_fmt`, `hw_params`, `trigger` and `set_dai_clkdiv`, the enable-bit handling of `startup` and `shutdown`, and the `ssp_names` table.
  - A 32-bit register value is the set of its one bits. OR is union, AND with a complement is difference, and a bit test is membership.
  - Numeric fields (`SSACD_ACDS(x)`, `SSCR0_SerClkDiv(x)`) are turned into bits through `BitsOf`, which reduces the value modulo 2^32.
  - Because writes are traced, two kinds of claim can be stated: "nothing was written", and "these writes were issued before the error".
- **ES8328 codec** (`sound/soc/codecs/es8328.c`). The chip cannot be read, so the codec state is:
  - a zero-initialised byte cache of all `ES8328_REG_MAX` registers;
  - the bias level, and the bias level the framework saved for resume;
  - the log of writes sent to the chip since the cache was allocated.

  The invariant `Coherent` says the cache equals the replay of that log onto the zeroed cache. So a cached read returns the last value sent to the chip, or zero if nothing was sent.
- **Kovan FPGA header** (`drivers/char/kovan_xilinx.h`): the `TYPE`/`NUM` nibble split of a minor number, and the seven ioctl commands.

Calls into code defined outside these drivers (`ssp_init`, `kmalloc`, the ALSA core) become parameters that carry their outcome:
- `ssp_init`'s status;
- the `kmalloc`/`kzalloc` outcome;
- the cache-I/O set-up status and the PCM-creation status;
- whether another stream of the unit is active (`cpu_dai->active`).

Register bit positions and the ES8328 register addresses follow the PXA2xx/PXA3xx SSP register header and `es8328.h`. The DMA command bits (DCMD_INCSRCADDR, DCMD_INCTRGADDR, DCMD_FLOWSRC, DCMD_FLOWTRG, DCMD_BURST16, DCMD_WIDTH2/4) follow the PXA DMA register header. The SSDR data-register offset follows the SSP register header. The set_clkdiv divider ids (ACDS, SCDB, SCR) and the SCDB divider values follow `pxa3xx-ssp.h`. None of these headers is part of this model. The properties are stated through the named bits. The ALSA constants use the values of the ALSA headers of the same era:
- DAI format fields: family in bits 0..3, inversion in bits 8..11, clock role in bits 12..15;
- the PCM formats S16_LE = 2 and S32_LE = 10;
- the trigger commands.

Files:
- `wrappers.dfy`: `Option` and the errno values.
- `ssp_regs.dfy`: the SSP register file, the MMIO port with its write trace, and the field-bound lemmas.
- `pxa_ssp_dai.dfy`: the DAI callbacks.
- `pxa_ssp_props.dfy`: properties of sequences of DAI callbacks.
- `es8328.dfy`: the codec cache and its callbacks.
- `es8328_props.dfy`: properties of sequences of codec callbacks.
- `kovan.dfy`: the FPGA header.

In these places the code does something easy to misread, and the model follows the code:
- Rejections are not free of side effects.
  - `set_dai_fmt` resets the port and records the family before it validates anything.
  - `set_dai_clkdiv` for SCDB writes the cleared divider bits before rejecting an unknown divider.
- The codec's `set_dai_fmt` accepts every format and every clock role, because its checks are compiled out.
- The soft-mute bit is the bit of value 4 (bit 2), not bit 4.
- A successful init issues 18 writes, and no register write happens before any of its failure exits.

## Model

| member | source | states |
|---|---|---|
| PxaSspDai.StreamNamesDistinct | sound/soc/pxa/pxa3xx-ssp.c:62-67 | Unit i's names are "SSP<i+1> PCM out" and "SSP<i+1> PCM in", so no two (unit, direction) pairs share a name |
| PxaSspDai.ResetPort | sound/soc/pxa/pxa3xx-ssp.c:220-228 | the port reset is exactly three writes: SSCR0 := 0, SSCR1 := RxTresh(8)\|TxTresh(7), SSPSP := 0; SSACD and SSSR keep their values |
| PxaSspDai.ProgramI2s | sound/soc/pxa/pxa3xx-ssp.c:230-257 | I2S sets SSCR0 := MOD\|PSP and ORs RWOT\|TRAIL into SSCR1. Polarity: NB_NF gives FSRT, NB_IF gives SFRMP\|FSRT, IB_IF gives SFRMP. IB_NF and unknown inversions are rejected after the SSCR0/SSCR1 writes. The writes are exactly SSCR0, SSCR1, then one SSPSP write when the inversion is accepted |
| PxaSspDai.ProgramDsp | sound/soc/pxa/pxa3xx-ssp.c:258-280 | DSP_A and DSP_B program the same SSCR0/SSCR1 as I2S. DSP_A also writes SSPSP := FSRT. NB_NF adds SFRMP and IB_IF adds nothing. Any other inversion is rejected with those writes left in place. The writes are exactly SSCR0, SSCR1, DSP_A's SSPSP write, then one SSPSP write for NB_NF only |
| PxaSspDai.ProgramRole | sound/soc/pxa/pxa3xx-ssp.c:285-300 | CBM_CFM adds SCLKDIR\|SFRMDIR, CBM_CFS adds SCLKDIR and CBS_CFS adds nothing. Any other role is rejected with no write. Only CBM_CFM and CBM_CFS issue a write, one to SSCR1 |
| PxaSspDai.ProgramFormat | sound/soc/pxa/pxa3xx-ssp.c:230-300 | On a freshly reset port: succeeds iff the polarity and role tables both accept. Gives the exact registers for success, a rejected inversion and a rejected role. The writes equal the ProgramWrites reference list, so a rejected inversion issues no role write |
| PxaSspDai.SetDaiFmt | sound/soc/pxa/pxa3xx-ssp.c:207-303 | With SSE set: returns 0 and changes nothing. Otherwise: stores the family, issues the reset writes first, and succeeds iff the polarity and role tables both accept. Gives the exact registers on success and for each kind of rejection. The writes issued equal the FormatWrites reference list, rejections included |
| PxaSspDai.HwParams | sound/soc/pxa/pxa3xx-ssp.c:309-375 | Allocation failure: -ENOMEM with nothing changed. Any format other than S16_LE/S32_LE: -EINVAL with no write and the descriptor untouched. On success: SSCR0 gains DataSize(16), plus EDSS for S32_LE. The descriptor carries the unit's stream name, the direction's flow flags and request line, burst 16, and the width (4 bytes iff S32_LE, FPCKE or EDSS, else 2), and no other command bit. SSPSP gains the frame width only when the stored family is I2S. The writes issued are exactly one SSCR0 write, then one SSPSP write on an I2S port |
| PxaSspDai.HwParamsPort | sound/soc/pxa/pxa3xx-ssp.c:323-339 | The SSCR0 write ORs in DataSize(16), plus EDSS for S32_LE, keeping every other bit. On an I2S port one SSPSP write follows that ORs in the frame width for the format's physical width (lines 366-372); otherwise SSPSP is untouched. No other register changes |
| PxaSspDai.StreamDescriptor | sound/soc/pxa/pxa3xx-ssp.c:348-360 | The descriptor has the direction's stream name and request line, and SSDR as its device address modulo 2^32. Its command word is exactly the direction's flow flags, burst 16 and the given width, with no other bit |
| PxaSspDai.Trigger | sound/soc/pxa/pxa3xx-ssp.c:377-458 | START ORs TSRE (playback) or RWOT\|RSRE (capture) into SSCR1, then sets SSE. STOP and PAUSE_PUSH clear only the direction's service request, in one SSCR1 write. PAUSE_RELEASE sets it again, then writes SSSR back with its own value. SUSPEND and RESUME clear and set SSE only, in one SSCR0 write. Any other command returns -EINVAL with no write |
| PxaSspDai.SetClkdiv | sound/soc/pxa/pxa3xx-ssp.c:155-200 | ACDS: clears bits 0..2, writes, ORs the divider, writes. SCDB: clears SCDB\|SCDX8 and writes; then sets SCDB for SCDB_1, nothing for SCDB_4 and SCDX8 for SCDB_8; any other divider returns -EINVAL after the clearing write. SCR: clears the field, writes, ORs SerClkDiv, writes. An unknown divider id returns -ENODEV with no write |
| PxaSspDai.Startup | sound/soc/pxa/pxa3xx-ssp.c:69-95 | If no stream is active and ssp_init fails, its status is returned with nothing changed. Otherwise SSE is cleared (only when no stream was active) and the substream's descriptor is released. No write is issued except that single SSCR0 write |
| PxaSspDai.Shutdown | sound/soc/pxa/pxa3xx-ssp.c:97-115 | the descriptor is always released; SSE is cleared only when no other stream is active, in a single SSCR0 write; no other write is issued |
| SspRegs.AcdsWithinField | sound/soc/pxa/pxa3xx-ssp.c:162-168 | an audio clock divider below 8 sets no bit outside SSACD bits 0..2 |
| SspRegs.SerClkDivWithinField | sound/soc/pxa/pxa3xx-ssp.c:188-194 | a serial clock divisor from 1 to 4096 sets no bit outside the SCR field of SSCR0 |
| PxaSspProps.StopIsPausePush | sound/soc/pxa/pxa3xx-ssp.c:419-451 | STOP and PAUSE_PUSH have the same effect on every unit and direction |
| PxaSspProps.StopKeepsPortEnabled | sound/soc/pxa/pxa3xx-ssp.c:214-216 | after START then STOP, SSE is still set, so a following set_dai_fmt returns 0 and changes nothing |
| PxaSspProps.RestartAfterStop | sound/soc/pxa/pxa3xx-ssp.c:404-435 | START, STOP, START gives the same registers as a single START |
| PxaSspProps.SuspendResume | sound/soc/pxa/pxa3xx-ssp.c:386-440 | on an enabled port, SUSPEND then RESUME restores every register |
| PxaSspProps.PauseRelease | sound/soc/pxa/pxa3xx-ssp.c:391-451 | when the direction's service request is set, PAUSE_PUSH then PAUSE_RELEASE restores every register |
| PxaSspProps.StopLeavesOtherDirection | sound/soc/pxa/pxa3xx-ssp.c:419-435 | stopping playback leaves capture's service request set |
| PxaSspProps.HwParamsRepeat | sound/soc/pxa/pxa3xx-ssp.c:305-375 | A second hw_params call with the same format, as OSS emulation may make, gives the same status, registers and descriptor |
| PxaSspProps.FrameWidthAccumulates | sound/soc/pxa/pxa3xx-ssp.c:326-341 | hw_params only ORs bits in (also lines 366-372). On an I2S port, S16_LE then S32_LE leaves both frame widths set in SSPSP. S32_LE then S16_LE keeps EDSS, so the 16-bit stream gets a 4-byte DMA width |
| PxaSspProps.SetDaiFmtRepeat | sound/soc/pxa/pxa3xx-ssp.c:214-233 | set_dai_fmt on a disabled port leaves it disabled, so repeating the call gives the same status and registers |
| PxaSspProps.ScdbLastWins | sound/soc/pxa/pxa3xx-ssp.c:169-187 | a second SCDB setting overrides the first, even a rejected one |
| PxaSspProps.AcdsLastWins | sound/soc/pxa/pxa3xx-ssp.c:162-168 | a second ACDS setting overrides a first one below 8 |
| PxaSspProps.ScrLastWins | sound/soc/pxa/pxa3xx-ssp.c:188-194 | a second SCR setting overrides a first one from 1 to 4096 |
| PxaSspProps.AcdsSpillsIntoScdb | sound/soc/pxa/pxa3xx-ssp.c:166 | the divider select is ORed in unmasked, so a divider of 8 sets the SCDB bit |
| Es8328.Write | sound/soc/codecs/es8328.c:36-41 | a write sets the register in the cache, leaves every other register alone, and appends one entry to the write log |
| Es8328.ReplayIsLastWrite | sound/soc/codecs/es8328.c:36-41 | replaying writes leaves each register holding the last value written to it, or its base value if it is never written |
| Es8328.CoherentReadsLastWrite | sound/soc/codecs/es8328.c:36-41 | on a coherent codec, a cached read returns the last value sent to the chip, or 0 if none was sent |
| Es8328.WritePreservesCoherent | sound/soc/codecs/es8328.c:36-41 | a write keeps the cache equal to the replay of the write log |
| Es8328.Mute | sound/soc/codecs/es8328.c:76-87 | returns 0 and issues one write, to DACCONTROL3. The bit of value 4 is set iff mute is nonzero, every other bit of DACCONTROL3 is kept, and no other register changes |
| Es8328.SetBiasLevel | sound/soc/codecs/es8328.c:172-186 | every level is accepted and stored; status 0; no register write |
| Es8328.Suspend | sound/soc/codecs/es8328.c:211-219 | bias goes to off; nothing else changes |
| Es8328.Resume | sound/soc/codecs/es8328.c:221-229 | bias goes back to the saved suspend level; nothing else changes |
| Es8328.HwParams | sound/soc/codecs/es8328.c:90-120 | for every sample format: CHIPPOWER := 0xaa as the only write, and status 0 |
| Es8328.SetDaiFmt | sound/soc/codecs/es8328.c:122-170 | every format word is accepted with status 0, and the codec is unchanged |
| Es8328.WriteAll | sound/soc/codecs/es8328.c:273-318 | issuing a sequence of writes appends exactly that sequence to the log and keeps the cache coherent |
| Es8328.InitSequenceTable | sound/soc/codecs/es8328.c:273-318 | in the init sequence, the last write to each register is its power-on value. CHIPPOWER ends at 0x00, because its 0xf3 is overwritten. Registers never written stay 0 |
| Es8328.InitCache | sound/soc/codecs/es8328.c:273-318 | a coherent codec whose log is the init sequence holds the power-on value in every register |
| Es8328.Init | sound/soc/codecs/es8328.c:235-326 | Allocation failure returns -ENOMEM. Otherwise the first negative status, cache-I/O then PCM creation, is returned. Every failure leaves no cache, no write and bias off. Success returns the PCM status, bias standby, the 18 writes in order, and every register at its power-on value |
| Es8328Props.MuteAfterInit | sound/soc/codecs/es8328.c:76-87 | after a successful init (DACCONTROL3 = 0x30), mute(1) gives 0x34, mute(0) gives 0x30, and mute(1) then mute(0) gives 0x30 |
| Es8328Props.MuteIdempotent | sound/soc/codecs/es8328.c:79-84 | muting or unmuting twice leaves the same cache as doing it once |
| Es8328Props.MuteThenUnmute | sound/soc/codecs/es8328.c:79-84 | on an unmuted codec, mute(1) then mute(0) restores the whole cache |
| Es8328Props.SuspendResume | sound/soc/codecs/es8328.c:211-229 | with the framework having saved the current level, suspend then resume returns the codec to its exact state |
| KovanFpga.Type | drivers/char/kovan_xilinx.h:53 | TYPE(minor) is always in 0..15 |
| KovanFpga.Num | drivers/char/kovan_xilinx.h:54 | NUM(minor) is always in 0..15 |
| KovanFpga.SplitThenJoin | drivers/char/kovan_xilinx.h:53-54 | every minor below 256 equals TYPE*16 + NUM |
| KovanFpga.JoinThenSplit | drivers/char/kovan_xilinx.h:53-54 | TYPE and NUM recover the nibbles a minor was built from |
| KovanFpga.NumIgnoresHighNibble | drivers/char/kovan_xilinx.h:54 | NUM(m+16) = NUM(m): NUM depends on the low nibble only |
| KovanFpga.TypeIgnoresHighBits | drivers/char/kovan_xilinx.h:53 | TYPE(m+256) = TYPE(m) and TYPE(m) = TYPE(m mod 256): TYPE depends on the second nibble only |
| KovanFpga.Code | drivers/char/kovan_xilinx.h:82-90 | each command word is below 2^32 and carries its number, the magic 'c', size 4, and direction 1 (_IOW) or 2 (_IOR) |
| KovanFpga.CommandOf | drivers/char/kovan_xilinx.h:84-92 | exactly the numbers 1..FPGA_IOC_MAXNR name a command, and each names the command with that number |
| KovanFpga.Decode | drivers/char/kovan_xilinx.h:82-92 | a decoded word is exactly its command's word. A wrong magic, or a number of 0 or above FPGA_IOC_MAXNR, decodes to nothing |
| KovanFpga.CommandsDistinct | drivers/char/kovan_xilinx.h:84-92 | each command number lies in 1..FPGA_IOC_MAXNR, and distinct commands have distinct numbers and words |
| KovanFpga.DecodeCode | drivers/char/kovan_xilinx.h:82-92 | every command's word decodes back to that command |

## Left out

- PxaSspDai.HwParams: the descriptor is allocated before the format check. On -EINVAL it is never freed. The model has no heap, so this leak is not modelled.
- PxaSspDai.Startup, PxaSspDai.Shutdown: `ssp_init` (line 79) and `ssp_exit` (line 110) are defined in the PXA SSP support code, and only ssp_init's status is modelled. The driver's own store of the device in `cpu_dai->private_data` (line 88) is not modelled, because the model passes the unit directly.
- Es8328.Init: on a failure exit the cache is freed, but the codec's cache pointer still points at it. The model treats the cache as gone.
- The SSP suspend/resume PM hooks (`pxa3xx_ssp_suspend`, `pxa3xx_ssp_resume`) are not modelled. They save and restore the unit through `ssp_save_state`/`ssp_restore_state` and gate its clock, and those calls are defined outside this driver, in the PXA SSP support code.
- Module init/exit, DAI registration, the I2C/SPI probe and remove, and `es8328_probe`/`es8328_remove` are not modelled. They are framework plumbing.
- The framework's cache I/O is not modelled. The model assumes a write stores the value into the cache and sends it to the chip, and a read returns the cached value. Registers at or above `ES8328_REG_MAX`, and the transport errors of the I2C write, are not modelled. The driver only names registers below `ES8328_REG_MAX`.
- `snd_soc_add_controls`, the "PCM Volume" control on DACCONTROL26, and the empty DAPM widget and route tables are not modelled. They are configuration handed to the framework.
- Code under `#if 0`, and code that is commented out, is not modelled as live behaviour: the ES8328 format checks, the ES8328 hw_params format switch, and `autopower_disable`.
- SSSR's write-one-to-clear behaviour is not modelled. MMIO is plain state that reads return, with no hardware timing.
- Concurrency between units and directions, and the framework's count of active streams, are not modelled. The count is a parameter.
- `fpga_write`, `fpga_ioctl`, `struct fpga_dev` and the debug macros of the FPGA header are not modelled. They are defined outside the header, in the FPGA driver, so the command decoder here is a reference for the command words, not the driver's handler.
