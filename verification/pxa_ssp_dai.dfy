/**
 * The PXA3xx SSP CPU-side digital audio interface callbacks: format
 * negotiation, hardware parameters, stream trigger, clock dividers, and the
 * enable-bit handling of startup and shutdown.
 *
 * Each callback maps a unit's state and a request to a status (0 or a
 * negated error number) and the unit's new state. Calls the driver makes into
 * code defined outside this driver (ssp_init, kmalloc, the ALSA core's count
 * of active streams) become parameters.
 */
module PxaSspDai {
  import opened Wrappers
  import opened Errno
  import opened SspRegs

  // ---- ALSA DAI format word ------------------------------------------------
  //
  // The word packs three 4-bit fields: the format family in bits 0..3, the
  // clock inversion in bits 8..11 and the clock role in bits 12..15. The
  // constants below are field values, i.e. the macro value shifted down.

  /** `fmt & SND_SOC_DAIFMT_FORMAT_MASK`. */
  function FamilyOf(fmt: nat): nat { fmt % 16 }

  /** `(fmt & SND_SOC_DAIFMT_INV_MASK) >> 8`. */
  function InversionOf(fmt: nat): nat { fmt / 256 % 16 }

  /** `(fmt & SND_SOC_DAIFMT_MASTER_MASK) >> 12`. */
  function RoleOf(fmt: nat): nat { fmt / 4096 % 16 }

  /** Format families. */
  const I2S: nat := 0
  const DSP_A: nat := 3
  const DSP_B: nat := 4

  /** Normal or inverted bit clock (B) and frame clock (F). */
  const NB_NF: nat := 0
  const NB_IF: nat := 1
  const IB_NF: nat := 2
  const IB_IF: nat := 3

  /** Which side masters the bit clock (CB) and frame clock (CF), seen from the codec. */
  const CBM_CFM: nat := 0
  const CBS_CFM: nat := 1
  const CBM_CFS: nat := 2
  const CBS_CFS: nat := 3

  // ---- PCM sample formats and trigger commands -----------------------------

  const S16_LE: int := 2
  const S32_LE: int := 10

  const TRIGGER_STOP: int := 0
  const TRIGGER_START: int := 1
  const TRIGGER_PAUSE_PUSH: int := 3
  const TRIGGER_PAUSE_RELEASE: int := 4
  const TRIGGER_SUSPEND: int := 5
  const TRIGGER_RESUME: int := 6

  // ---- Clock divider identifiers -------------------------------------------

  const DIV_ACDS: int := 0
  const DIV_SCDB: int := 1
  const DIV_SCR: int := 2

  const SCDB_4: int := 0
  const SCDB_1: int := 1
  const SCDB_8: int := 2

  // ---- DMA command word ----------------------------------------------------

  const INCSRCADDR: Bit := 31
  const INCTRGADDR: Bit := 30
  const FLOWSRC: Bit := 29
  const FLOWTRG: Bit := 28
  /** Burst size field, bits 16..17; value 2 is 16 bytes. */
  const BURST_FIELD: Word := {16, 17}
  const BURST16: Word := {17}
  /** Transfer width field, bits 14..15; value 2 is two bytes, 3 is four. */
  const WIDTH_FIELD: Word := {14, 15}
  const WIDTH2: Word := {15}
  const WIDTH4: Word := {14, 15}

  /** Offset of the SSP data register from the unit's physical base. */
  const SSDR: nat := 0x10

  /** The transfer width, in bytes, a DMA command word encodes. */
  function WidthBytes(dcmd: Word): nat {
    var w := dcmd * WIDTH_FIELD;
    if w == {} then 0 else if w == {14} then 1 else if w == {15} then 2 else 4
  }

  // ---- State ---------------------------------------------------------------

  datatype Direction = Playback | Capture

  /** Fixed facts about a unit: where its registers live and its DMA request lines. */
  datatype Device = Device(physBase: nat, drcmrTx: nat, drcmrRx: nat)

  /** The DMA descriptor handed to the PCM layer for one substream. */
  datatype DmaParams = DmaParams(name: string, dcmd: Word, drcmr: nat, devAddr: nat)

  /**
   * One SSP unit: its registers, the format family stored by the last
   * set_dai_fmt that got past the enable check (zero, that is I2S, until
   * then, as in a static array), and the DMA descriptor of each substream.
   */
  datatype Unit = Unit(id: nat, dev: Device, port: Port, daiFmt: nat,
                       playback: Option<DmaParams>, capture: Option<DmaParams>)

  datatype Outcome = Outcome(status: int, unit: Unit)

  /** Intermediate result of a programming step: accepted or not, and the port after it. */
  datatype Step = Step(ok: bool, port: Port)

  function Dma(u: Unit, dir: Direction): Option<DmaParams> {
    if dir == Playback then u.playback else u.capture
  }

  function WithDma(u: Unit, dir: Direction, d: Option<DmaParams>): (v: Unit)
    ensures Dma(v, dir) == d
    ensures dir == Playback ==> v.capture == u.capture
    ensures dir == Capture ==> v.playback == u.playback
    ensures v.port == u.port && v.daiFmt == u.daiFmt && v.id == u.id && v.dev == u.dev
  {
    if dir == Playback then u.(playback := d) else u.(capture := d)
  }

  /** The port enable bit is set. */
  predicate Enabled(u: Unit) {
    SSE in u.port.regs.sscr0
  }

  /** Per-unit stream names, indexed by unit and then playback / capture. */
  const SSP_NAMES: seq<seq<string>> := [
    ["SSP1 PCM out", "SSP1 PCM in"],
    ["SSP2 PCM out", "SSP2 PCM in"],
    ["SSP3 PCM out", "SSP3 PCM in"],
    ["SSP4 PCM out", "SSP4 PCM in"]
  ]

  function StreamName(id: nat, dir: Direction): string
    requires id < 4
  {
    SSP_NAMES[id][if dir == Playback then 0 else 1]
  }

  /**
   * Unit `id`'s names read "SSP<id+1> PCM out" and "SSP<id+1> PCM in", so no
   * two (unit, direction) pairs share a name.
   */
  lemma StreamNamesDistinct(i: nat, d: Direction, j: nat, e: Direction)
    requires i < 4 && j < 4
    ensures StreamName(i, d)[..3] == "SSP"
    ensures StreamName(i, d)[3] == "1234"[i]
    ensures StreamName(i, d)[4..] == if d == Playback then " PCM out" else " PCM in"
    ensures (i, d) != (j, e) ==> StreamName(i, d) != StreamName(j, e)
  {
    if (i, d) != (j, e) {
      if i != j {
        assert StreamName(i, d)[3] != StreamName(j, e)[3];
      } else {
        assert |StreamName(i, d)| != |StreamName(j, e)|;
      }
    }
  }

  // ---- set_dai_fmt ---------------------------------------------------------

  /** SSCR1 after the port reset: receive threshold 8, transmit threshold 7. */
  const RESET_SSCR1: Word := RX_THRESH_8 + TX_THRESH_7

  /** The three writes that reset the port before the format is examined. */
  const RESET_WRITES: seq<Access> := [Access(SSCR0, {}), Access(SSCR1, RESET_SSCR1), Access(SSPSP, {})]

  /** SSCR0 of a port programmed for any accepted family: network mode, PSP frame format. */
  const PSP_SSCR0: Word := PSP + {MOD}

  /** SSCR1 bits every accepted family adds to the reset value. */
  const PSP_SSCR1: Word := RESET_SSCR1 + {RWOT, TRAIL}

  /**
   * The SSPSP polarity bits an accepted (family, inversion) pair leaves
   * behind, or None when the pair is rejected.
   */
  function PolarityBits(family: nat, inv: nat): Option<Word> {
    if family == I2S then
      if inv == NB_NF then Some({FSRT})
      else if inv == NB_IF then Some({SFRMP, FSRT})
      else if inv == IB_IF then Some({SFRMP})
      else None
    else if family == DSP_A then
      if inv == NB_NF then Some({FSRT, SFRMP})
      else if inv == IB_IF then Some({FSRT})
      else None
    else if family == DSP_B then
      if inv == NB_NF then Some({SFRMP})
      else if inv == IB_IF then Some({})
      else None
    else None
  }

  /** The SSCR1 clock-direction bits an accepted role sets, or None when the role is rejected. */
  function RoleBits(role: nat): Option<Word> {
    if role == CBM_CFM then Some({SCLKDIR, SFRMDIR})
    else if role == CBM_CFS then Some({SCLKDIR})
    else if role == CBS_CFS then Some({})
    else None
  }

  /** Families the unit programs as a programmable-serial-protocol port. */
  predicate PspFamily(family: nat) {
    family == I2S || family == DSP_A || family == DSP_B
  }

  /** Frame format and polarity for the I2S family. */
  function ProgramI2s(p: Port, inv: nat): (s: Step)
    requires p.regs.sspsp == {}
    ensures Extends(p, s.port)
    ensures s.ok <==> PolarityBits(I2S, inv).Some?
    ensures s.port.regs == p.regs.(sscr0 := PSP_SSCR0, sscr1 := p.regs.sscr1 + {RWOT, TRAIL},
      sspsp := if s.ok then PolarityBits(I2S, inv).value else {})
    ensures NewWrites(p, s.port)
            == [Access(SSCR0, PSP_SSCR0), Access(SSCR1, p.regs.sscr1 + {RWOT, TRAIL})]
               + (if s.ok then [Access(SSPSP, s.port.regs.sspsp)] else [])
  {
    var p1 := Write(p, SSCR0, PSP + {MOD});
    var p2 := Write(p1, SSCR1, Read(p1, SSCR1) + {RWOT, TRAIL});
    ExtendsTrans(p, p1, p2);
    if inv == NB_NF then Step(true, OrInto(p2, SSPSP, {FSRT}))
    else if inv == NB_IF then Step(true, OrInto(p2, SSPSP, {SFRMP, FSRT}))
    else if inv == IB_IF then Step(true, OrInto(p2, SSPSP, {SFRMP}))
    else Step(false, p2)
  }

  /** Frame format and polarity for the two DSP families; only DSP_A asserts the frame early. */
  function ProgramDsp(p: Port, family: nat, inv: nat): (s: Step)
    requires p.regs.sspsp == {}
    requires family == DSP_A || family == DSP_B
    ensures Extends(p, s.port)
    ensures s.ok <==> PolarityBits(family, inv).Some?
    ensures s.port.regs == p.regs.(sscr0 := PSP_SSCR0, sscr1 := p.regs.sscr1 + {RWOT, TRAIL},
      sspsp := if s.ok then PolarityBits(family, inv).value else if family == DSP_A then {FSRT} else {})
    // DSP_A writes FSRT outright; only the NB_NF polarity is OR-ed in afterwards
    ensures NewWrites(p, s.port)
            == [Access(SSCR0, PSP_SSCR0), Access(SSCR1, p.regs.sscr1 + {RWOT, TRAIL})]
               + (if family == DSP_A then [Access(SSPSP, {FSRT})] else [])
               + (if inv == NB_NF then [Access(SSPSP, s.port.regs.sspsp)] else [])
  {
    var p1 := Write(p, SSCR0, PSP + {MOD});
    var p2 := Write(p1, SSCR1, Read(p1, SSCR1) + {TRAIL, RWOT});
    ExtendsTrans(p, p1, p2);
    var p3 := if family == DSP_A then Write(p2, SSPSP, {FSRT}) else p2;
    ExtendsTrans(p, p2, p3);
    if inv == NB_NF then Step(true, OrInto(p3, SSPSP, {SFRMP}))
    else if inv == IB_IF then Step(true, p3)
    else Step(false, p3)
  }

  /** A read-modify-write that sets `bits` in register `r`. */
  function OrInto(p: Port, r: Reg, bits: Word): (q: Port)
    ensures Extends(p, q) && NewWrites(p, q) == [Access(r, Read(p, r) + bits)]
    ensures Read(q, r) == Read(p, r) + bits
    ensures forall o :: o != r ==> Read(q, o) == Read(p, o)
  {
    Write(p, r, Read(p, r) + bits)
  }

  /** Clock and frame direction: the second switch of set_dai_fmt. */
  function ProgramRole(p: Port, role: nat): (s: Step)
    ensures Extends(p, s.port)
    ensures s.ok <==> RoleBits(role).Some?
    ensures s.ok ==> s.port.regs == p.regs.(sscr1 := p.regs.sscr1 + RoleBits(role).value)
    ensures !s.ok ==> s.port == p
    // slave clock and frame (CBS_CFS) need no write
    ensures NewWrites(p, s.port)
            == (if role == CBM_CFM || role == CBM_CFS then [Access(SSCR1, s.port.regs.sscr1)] else [])
  {
    if role == CBM_CFM then Step(true, OrInto(p, SSCR1, {SCLKDIR, SFRMDIR}))
    else if role == CBM_CFS then Step(true, OrInto(p, SSCR1, {SCLKDIR}))
    else if role == CBS_CFS then Step(true, p)
    else Step(false, p)
  }

  /** The port reset at the head of set_dai_fmt. */
  function ResetPort(p: Port): (q: Port)
    ensures Extends(p, q) && NewWrites(p, q) == RESET_WRITES
    ensures q.regs == p.regs.(sscr0 := {}, sscr1 := RESET_SSCR1, sspsp := {})
  {
    var p1 := Write(p, SSCR0, {});
    var p2 := Write(p1, SSCR1, RX_THRESH_8 + TX_THRESH_7);
    var p3 := Write(p2, SSPSP, {});
    ExtendsTrans(p, p1, p2);
    ExtendsTrans(p, p2, p3);
    p3
  }

  /** Whether an accepted (family, inversion) pair issues a polarity write: every one but DSP's IB_IF. */
  predicate PolarityWritten(family: nat, inv: nat) {
    PolarityBits(family, inv).Some? && (family == I2S || inv == NB_NF)
  }

  /**
   * The writes that program a freshly reset port for a programmable-serial-
   * protocol family, in order: frame format and FIFO control, DSP_A's
   * frame-timing write, the polarity write, and, once the polarity is
   * accepted, the clock-direction write of a master role.
   */
  function ProgramWrites(family: nat, inv: nat, role: nat): seq<Access> {
    [Access(SSCR0, PSP_SSCR0), Access(SSCR1, PSP_SSCR1)]
    + (if family == DSP_A then [Access(SSPSP, {FSRT})] else [])
    + (if PolarityWritten(family, inv) then [Access(SSPSP, PolarityBits(family, inv).value)] else [])
    + (if PolarityBits(family, inv).Some? && (role == CBM_CFM || role == CBM_CFS)
       then [Access(SSCR1, PSP_SSCR1 + RoleBits(role).value)] else [])
  }

  /** The writes set_dai_fmt issues on a disabled port: the reset, then the programming of an accepted family. */
  function FormatWrites(family: nat, inv: nat, role: nat): seq<Access> {
    RESET_WRITES + if PspFamily(family) then ProgramWrites(family, inv, role) else []
  }

  /**
   * The body of set_dai_fmt after the reset: the family's frame format and
   * polarity, then, if those are accepted, the clock role.
   */
  function ProgramFormat(p: Port, family: nat, inv: nat, role: nat): (s: Step)
    requires PspFamily(family)
    requires p.regs.sscr1 == RESET_SSCR1 && p.regs.sspsp == {}
    ensures Extends(p, s.port) && NewWrites(p, s.port) == ProgramWrites(family, inv, role)
    ensures s.ok <==> PolarityBits(family, inv).Some? && RoleBits(role).Some?
    ensures s.ok ==> s.port.regs == p.regs.(sscr0 := PSP_SSCR0,
      sscr1 := PSP_SSCR1 + RoleBits(role).value, sspsp := PolarityBits(family, inv).value)
    ensures PolarityBits(family, inv).None? ==> s.port.regs == p.regs.(sscr0 := PSP_SSCR0,
      sscr1 := PSP_SSCR1, sspsp := if family == DSP_A then {FSRT} else {})
    ensures PolarityBits(family, inv).Some? && RoleBits(role).None? ==> s.port.regs == p.regs.(
      sscr0 := PSP_SSCR0, sscr1 := PSP_SSCR1, sspsp := PolarityBits(family, inv).value)
  {
    var f := if family == I2S then ProgramI2s(p, inv) else ProgramDsp(p, family, inv);
    if !f.ok then f
    else
      var g := ProgramRole(f.port, role);
      ExtendsTrans(p, f.port, g.port);
      g
  }

  /**
   * set_dai_fmt. While the port is enabled the call changes nothing and
   * succeeds. Otherwise the family is recorded and the port is reset before
   * anything is validated, so a rejection leaves the reset (and whatever part
   * of the format was already programmed) behind.
   */
  function SetDaiFmt(u: Unit, fmt: nat): (r: Outcome)
    // the enable-bit guard
    ensures Enabled(u) ==> r == Outcome(0, u)
    ensures !Enabled(u) ==> r.unit.daiFmt == FamilyOf(fmt)
    ensures !Enabled(u) ==> (Extends(u.port, r.unit.port) && |NewWrites(u.port, r.unit.port)| >= 3
      && NewWrites(u.port, r.unit.port)[..3] == RESET_WRITES)
    // exactly the writes of the reference list, rejections included
    ensures !Enabled(u) ==> NewWrites(u.port, r.unit.port) == FormatWrites(FamilyOf(fmt), InversionOf(fmt), RoleOf(fmt))
    // accepted exactly when the family, inversion and role are all in the tables
    ensures r.status == 0 || r.status == -EINVAL
    ensures !Enabled(u) ==> (r.status == 0 <==>
      PolarityBits(FamilyOf(fmt), InversionOf(fmt)).Some? && RoleBits(RoleOf(fmt)).Some?)
    ensures !Enabled(u) && r.status == 0 ==> r.unit.port.regs == u.port.regs.(
      sscr0 := PSP_SSCR0,
      sscr1 := PSP_SSCR1 + RoleBits(RoleOf(fmt)).value,
      sspsp := PolarityBits(FamilyOf(fmt), InversionOf(fmt)).value)
    // what each rejection leaves behind
    ensures !Enabled(u) && !PspFamily(FamilyOf(fmt)) ==>
      r.unit.port.regs == u.port.regs.(sscr0 := {}, sscr1 := RESET_SSCR1, sspsp := {})
    ensures !Enabled(u) && PspFamily(FamilyOf(fmt)) && PolarityBits(FamilyOf(fmt), InversionOf(fmt)).None? ==>
      r.unit.port.regs == u.port.regs.(sscr0 := PSP_SSCR0, sscr1 := PSP_SSCR1,
        sspsp := if FamilyOf(fmt) == DSP_A then {FSRT} else {})
    ensures !Enabled(u) && PolarityBits(FamilyOf(fmt), InversionOf(fmt)).Some? && RoleBits(RoleOf(fmt)).None? ==>
      r.unit.port.regs == u.port.regs.(sscr0 := PSP_SSCR0, sscr1 := PSP_SSCR1,
        sspsp := PolarityBits(FamilyOf(fmt), InversionOf(fmt)).value)
    // nothing but the port and the stored family changes
    ensures r.unit == u.(port := r.unit.port, daiFmt := r.unit.daiFmt)
  {
    if SSE in Read(u.port, SSCR0) then Outcome(0, u)
    else
      var family, inv, role := FamilyOf(fmt), InversionOf(fmt), RoleOf(fmt);
      var v := u.(daiFmt := family);
      var p := ResetPort(u.port);
      if !PspFamily(family) then Outcome(-EINVAL, v.(port := p))
      else
        var g := ProgramFormat(p, family, inv, role);
        ExtendsTrans(u.port, p, g.port);
        Outcome(if g.ok then 0 else -EINVAL, v.(port := g.port))
  }

  // ---- hw_params -----------------------------------------------------------

  /** Physical sample width in bits of the two accepted formats. */
  function PhysicalWidth(format: int): nat
    requires format == S16_LE || format == S32_LE
  {
    if format == S16_LE then 16 else 32
  }

  /** The address-increment and flow-control flags of a transfer in direction `dir`. */
  function FlowFlags(dir: Direction): Word {
    if dir == Playback then {INCSRCADDR, FLOWTRG} else {INCTRGADDR, FLOWSRC}
  }

  /** The command-word bits that carry the address-increment and flow-control flags. */
  const FLOW_FIELD: Word := {INCSRCADDR, INCTRGADDR, FLOWSRC, FLOWTRG}

  /**
   * The descriptor hw_params fills in for direction `dir` of unit `id`: the
   * stream's name and request line, the data register as the device address,
   * and a command word of the direction's flow flags, a 16-byte burst and
   * the transfer width `width`.
   */
  function StreamDescriptor(id: nat, dev: Device, dir: Direction, width: Word): (d: DmaParams)
    requires id < 4 && width <= WIDTH_FIELD
    ensures d.name == StreamName(id, dir)
    ensures d.dcmd * FLOW_FIELD == FlowFlags(dir)
    ensures d.dcmd * BURST_FIELD == BURST16
    ensures d.dcmd * WIDTH_FIELD == width
    ensures d.dcmd <= FLOW_FIELD + BURST_FIELD + WIDTH_FIELD
    ensures d.drcmr == (if dir == Playback then dev.drcmrTx else dev.drcmrRx)
    ensures d.devAddr == (dev.physBase + SSDR) % 0x1_0000_0000
  {
    var addr := (dev.physBase + SSDR) % 0x1_0000_0000;
    if dir == Playback
    then DmaParams(SSP_NAMES[id][0], {INCSRCADDR, FLOWTRG} + BURST16 + width, dev.drcmrTx, addr)
    else DmaParams(SSP_NAMES[id][1], {INCTRGADDR, FLOWSRC} + BURST16 + width, dev.drcmrRx, addr)
  }

  /**
   * The register writes of hw_params for an accepted format: the data size
   * (and extended data size for 32-bit containers) into SSCR0, then, on an
   * I2S port, the frame width into SSPSP.
   */
  function HwParamsPort(p: Port, format: int, i2s: bool): (q: Port)
    requires format == S16_LE || format == S32_LE
    ensures Extends(p, q)
    ensures NewWrites(p, q)
            == [Access(SSCR0, q.regs.sscr0)] + (if i2s then [Access(SSPSP, q.regs.sspsp)] else [])
    ensures OnlyChanged(p.regs, q.regs, {SSCR0, SSPSP})
    ensures SetsBits(p.regs.sscr0, q.regs.sscr0, DATA_SIZE_16 + if format == S32_LE then {EDSS} else {})
    ensures i2s ==> SetsBits(p.regs.sspsp, q.regs.sspsp, FrameWidth(PhysicalWidth(format)))
    ensures !i2s ==> q.regs.sspsp == p.regs.sspsp
  {
    var sscr0 := if format == S16_LE then Read(p, SSCR0) + DATA_SIZE_16
                 else Read(p, SSCR0) + {EDSS} + DATA_SIZE_16;
    var p1 := Write(p, SSCR0, sscr0);
    if i2s then
      var p2 := OrInto(p1, SSPSP, FrameWidth(PhysicalWidth(format)));
      ExtendsTrans(p, p1, p2);
      p2
    else p1
  }

  /**
   * hw_params. Only 16- and 32-bit little-endian samples are accepted; the
   * 32-bit format is carried as 16 significant bits in a 32-bit container
   * (extended data size). The descriptor of the substream is replaced, and on
   * an I2S port the frame width is OR-ed into SSPSP. The allocation of the
   * descriptor is the `allocOk` parameter.
   */
  function HwParams(u: Unit, dir: Direction, format: int, allocOk: bool): (r: Outcome)
    requires u.id < 4
    ensures !allocOk ==> r == Outcome(-ENOMEM, u)
    ensures allocOk && format != S16_LE && format != S32_LE ==> r == Outcome(-EINVAL, u)
    ensures r.status == 0 <==> allocOk && (format == S16_LE || format == S32_LE)
    ensures r.status == 0 ==>
      && r.unit == WithDma(u, dir, Dma(r.unit, dir)).(port := r.unit.port)
      && OnlyChanged(u.port.regs, r.unit.port.regs, {SSCR0, SSPSP})
      // 16-bit data size, plus extended data size for 32-bit containers
      && SetsBits(u.port.regs.sscr0, r.unit.port.regs.sscr0,
           DATA_SIZE_16 + if format == S32_LE then {EDSS} else {})
      // the frame width only on an I2S port
      && (u.daiFmt == I2S ==>
           SetsBits(u.port.regs.sspsp, r.unit.port.regs.sspsp, FrameWidth(PhysicalWidth(format))))
      && (u.daiFmt != I2S ==> r.unit.port.regs.sspsp == u.port.regs.sspsp)
      // SSCR0 is written once, then SSPSP once on an I2S port
      && Extends(u.port, r.unit.port)
      && NewWrites(u.port, r.unit.port)
         == [Access(SSCR0, r.unit.port.regs.sscr0)]
            + (if u.daiFmt == I2S then [Access(SSPSP, r.unit.port.regs.sspsp)] else [])
      // the descriptor
      && Dma(r.unit, dir).Some?
      && var d := Dma(r.unit, dir).value;
      && d.name == StreamName(u.id, dir)
      && d.dcmd * FLOW_FIELD == FlowFlags(dir)
      && d.dcmd * BURST_FIELD == BURST16
      // no command bit outside the flow, burst and width fields
      && d.dcmd <= FLOW_FIELD + BURST_FIELD + WIDTH_FIELD
      && WidthBytes(d.dcmd) == (if format == S32_LE || FPCKE in u.port.regs.sscr0 || EDSS in u.port.regs.sscr0 then 4 else 2)
      && d.drcmr == (if dir == Playback then u.dev.drcmrTx else u.dev.drcmrRx)
      && d.devAddr == (u.dev.physBase + SSDR) % 0x1_0000_0000
  {
    if !allocOk then Outcome(-ENOMEM, u)
    else if format != S16_LE && format != S32_LE then Outcome(-EINVAL, u)
    else
      var q := HwParamsPort(u.port, format, u.daiFmt == I2S);
      var sscr0 := Read(q, SSCR0);
      var width := if format == S16_LE then (if FPCKE in sscr0 || EDSS in sscr0 then WIDTH4 else WIDTH2)
                   else WIDTH4;
      Outcome(0, WithDma(u.(port := q), dir, Some(StreamDescriptor(u.id, u.dev, dir, width))))
  }

  // ---- trigger -------------------------------------------------------------

  /** The service-request (DMA request) enable bit of direction `dir`. */
  function ServiceRequest(dir: Direction): Bit {
    if dir == Playback then TSRE else RSRE
  }

  /** The SSCR1 bits START sets: capture also sets receive-without-transmit. */
  function StartBits(dir: Direction): Word {
    if dir == Playback then {TSRE} else {RWOT, RSRE}
  }

  /**
   * trigger. START sets the direction's bits and then the port enable; STOP
   * and PAUSE_PUSH clear the service request only and leave the port enabled;
   * PAUSE_RELEASE sets the service request again and writes the status
   * register back with the value read; SUSPEND and RESUME clear and set the
   * port enable only. Any other command is rejected without a write.
   */
  function Trigger(u: Unit, dir: Direction, cmd: int): (r: Outcome)
    ensures r.unit == u.(port := r.unit.port)
    ensures Extends(u.port, r.unit.port)
    ensures r.status == 0 <==> cmd in {TRIGGER_START, TRIGGER_STOP, TRIGGER_PAUSE_PUSH,
                                        TRIGGER_PAUSE_RELEASE, TRIGGER_SUSPEND, TRIGGER_RESUME}
    ensures r.status != 0 ==> r == Outcome(-EINVAL, u)
    ensures cmd == TRIGGER_START ==>
      && OnlyChanged(u.port.regs, r.unit.port.regs, {SSCR0, SSCR1})
      && SetsBits(u.port.regs.sscr1, r.unit.port.regs.sscr1, StartBits(dir))
      && SetsBits(u.port.regs.sscr0, r.unit.port.regs.sscr0, {SSE})
      // the direction is armed before the port is enabled
      && NewWrites(u.port, r.unit.port)
         == [Access(SSCR1, r.unit.port.regs.sscr1), Access(SSCR0, r.unit.port.regs.sscr0)]
    ensures cmd == TRIGGER_STOP || cmd == TRIGGER_PAUSE_PUSH ==>
      && OnlyChanged(u.port.regs, r.unit.port.regs, {SSCR1})
      && ClearsBits(u.port.regs.sscr1, r.unit.port.regs.sscr1, {ServiceRequest(dir)})
      && NewWrites(u.port, r.unit.port) == [Access(SSCR1, r.unit.port.regs.sscr1)]
    ensures cmd == TRIGGER_PAUSE_RELEASE ==>
      && r.unit.port.regs == u.port.regs.(sscr1 := r.unit.port.regs.sscr1)
      && SetsBits(u.port.regs.sscr1, r.unit.port.regs.sscr1, {ServiceRequest(dir)})
      // the status register is written back with the value it held
      && NewWrites(u.port, r.unit.port)
         == [Access(SSCR1, r.unit.port.regs.sscr1), Access(SSSR, u.port.regs.sssr)]
    ensures cmd == TRIGGER_SUSPEND ==>
      && OnlyChanged(u.port.regs, r.unit.port.regs, {SSCR0})
      && ClearsBits(u.port.regs.sscr0, r.unit.port.regs.sscr0, {SSE})
      && NewWrites(u.port, r.unit.port) == [Access(SSCR0, r.unit.port.regs.sscr0)]
    ensures cmd == TRIGGER_RESUME ==>
      && OnlyChanged(u.port.regs, r.unit.port.regs, {SSCR0})
      && SetsBits(u.port.regs.sscr0, r.unit.port.regs.sscr0, {SSE})
      && NewWrites(u.port, r.unit.port) == [Access(SSCR0, r.unit.port.regs.sscr0)]
  {
    if cmd == TRIGGER_RESUME then
      Outcome(0, u.(port := OrInto(u.port, SSCR0, {SSE})))
    else if cmd == TRIGGER_PAUSE_RELEASE then
      var p := OrInto(u.port, SSCR1, {ServiceRequest(dir)});
      var q := Write(p, SSSR, Read(p, SSSR));
      ExtendsTrans(u.port, p, q);
      Outcome(0, u.(port := q))
    else if cmd == TRIGGER_START then
      var p := OrInto(u.port, SSCR1, StartBits(dir));
      var q := OrInto(p, SSCR0, {SSE});
      ExtendsTrans(u.port, p, q);
      Outcome(0, u.(port := q))
    else if cmd == TRIGGER_STOP then
      Outcome(0, u.(port := Write(u.port, SSCR1, Read(u.port, SSCR1) - {ServiceRequest(dir)})))
    else if cmd == TRIGGER_SUSPEND then
      Outcome(0, u.(port := Write(u.port, SSCR0, Read(u.port, SSCR0) - {SSE})))
    else if cmd == TRIGGER_PAUSE_PUSH then
      Outcome(0, u.(port := Write(u.port, SSCR1, Read(u.port, SSCR1) - {ServiceRequest(dir)})))
    else Outcome(-EINVAL, u)
  }

  // ---- set_clkdiv ----------------------------------------------------------

  /**
   * set_clkdiv. ACDS clears the divider-select field and then ORs the
   * divider in unmasked; SCDB clears both SYSCLK divider bits and then sets
   * the one the divider names (none for divide-by-4), rejecting any other
   * divider after the clearing write; SCR clears the serial clock rate field
   * and then ORs the divider in. Any other divider id is rejected without a
   * write.
   */
  function SetClkdiv(u: Unit, divId: int, div: int): (r: Outcome)
    ensures r.unit == u.(port := r.unit.port)
    ensures Extends(u.port, r.unit.port)
    ensures divId !in {DIV_ACDS, DIV_SCDB, DIV_SCR} ==> r == Outcome(-ENODEV, u)
    ensures divId == DIV_ACDS ==>
      && r.status == 0
      && OnlyChanged(u.port.regs, r.unit.port.regs, {SSACD})
      && r.unit.port.regs.ssacd * ACDS_FIELD == Acds(div) * ACDS_FIELD
      && r.unit.port.regs.ssacd - ACDS_FIELD == (u.port.regs.ssacd - ACDS_FIELD) + (Acds(div) - ACDS_FIELD)
      && NewWrites(u.port, r.unit.port)
         == [Access(SSACD, u.port.regs.ssacd - ACDS_FIELD), Access(SSACD, r.unit.port.regs.ssacd)]
    ensures divId == DIV_SCDB ==>
      && (r.status == 0 <==> div in {SCDB_1, SCDB_4, SCDB_8})
      && (r.status != 0 ==> r.status == -EINVAL)
      && OnlyChanged(u.port.regs, r.unit.port.regs, {SSACD})
      && r.unit.port.regs.ssacd - {SCDB, SCDX8} == u.port.regs.ssacd - {SCDB, SCDX8}
      && (SCDB in r.unit.port.regs.ssacd <==> div == SCDB_1)
      && (SCDX8 in r.unit.port.regs.ssacd <==> div == SCDB_8)
      // the clearing write is issued even when the divider is then rejected
      // and a second write only when a bit is set
      && NewWrites(u.port, r.unit.port)
         == [Access(SSACD, u.port.regs.ssacd - {SCDB, SCDX8})]
            + (if div == SCDB_1 || div == SCDB_8 then [Access(SSACD, r.unit.port.regs.ssacd)] else [])
    ensures divId == DIV_SCR ==>
      && r.status == 0
      && OnlyChanged(u.port.regs, r.unit.port.regs, {SSCR0})
      && r.unit.port.regs.sscr0 * SCR == SerClkDiv(div) * SCR
      && r.unit.port.regs.sscr0 - SCR == (u.port.regs.sscr0 - SCR) + (SerClkDiv(div) - SCR)
      && NewWrites(u.port, r.unit.port)
         == [Access(SSCR0, u.port.regs.sscr0 - SCR), Access(SSCR0, r.unit.port.regs.sscr0)]
  {
    if divId == DIV_ACDS then
      var ssacd := Read(u.port, SSACD) - ACDS_FIELD;
      var p := Write(u.port, SSACD, ssacd);
      var q := Write(p, SSACD, ssacd + Acds(div));
      ExtendsTrans(u.port, p, q);
      Outcome(0, u.(port := q))
    else if divId == DIV_SCDB then
      var ssacd := Read(u.port, SSACD) - {SCDB, SCDX8};
      var p := Write(u.port, SSACD, ssacd);
      if div == SCDB_1 then
        var q := Write(p, SSACD, ssacd + {SCDB});
        ExtendsTrans(u.port, p, q);
        Outcome(0, u.(port := q))
      else if div == SCDB_4 then Outcome(0, u.(port := p))
      else if div == SCDB_8 then
        var q := Write(p, SSACD, ssacd + {SCDX8});
        ExtendsTrans(u.port, p, q);
        Outcome(0, u.(port := q))
      else Outcome(-EINVAL, u.(port := p))
    else if divId == DIV_SCR then
      var sscr0 := Read(u.port, SSCR0) - SCR;
      var p := Write(u.port, SSCR0, sscr0);
      var q := Write(p, SSCR0, sscr0 + SerClkDiv(div));
      ExtendsTrans(u.port, p, q);
      Outcome(0, u.(port := q))
    else Outcome(-ENODEV, u)
  }

  // ---- startup and shutdown ------------------------------------------------

  /**
   * startup. When no stream of the unit is active yet, the unit is claimed
   * (ssp_init, whose status is `initStatus`) and, on success, the port enable
   * is cleared. On success the substream's descriptor is released.
   */
  function Startup(u: Unit, dir: Direction, othersActive: bool, initStatus: int): (r: Outcome)
    ensures !othersActive && initStatus != 0 ==> r == Outcome(initStatus, u)
    ensures othersActive || initStatus == 0 ==>
      && r.status == 0
      && r.unit == WithDma(u, dir, None).(port := r.unit.port)
      && Dma(r.unit, dir) == None
    ensures othersActive ==> r.unit.port == u.port
    ensures Extends(u.port, r.unit.port)
    ensures !othersActive && initStatus == 0 ==>
      && NewWrites(u.port, r.unit.port) == [Access(SSCR0, r.unit.port.regs.sscr0)]
      && OnlyChanged(u.port.regs, r.unit.port.regs, {SSCR0})
      && ClearsBits(u.port.regs.sscr0, r.unit.port.regs.sscr0, {SSE})
      && !Enabled(r.unit)
  {
    if !othersActive then
      if initStatus != 0 then Outcome(initStatus, u)
      else
        var p := Write(u.port, SSCR0, Read(u.port, SSCR0) - {SSE});
        Outcome(0, WithDma(u.(port := p), dir, None))
    else Outcome(0, WithDma(u, dir, None))
  }

  /**
   * shutdown. When no other stream of the unit is active, the port enable is
   * cleared before the unit is released (ssp_exit). The substream's
   * descriptor is released in every case.
   */
  function Shutdown(u: Unit, dir: Direction, othersActive: bool): (r: Unit)
    ensures r == WithDma(u, dir, None).(port := r.port)
    ensures Dma(r, dir) == None
    ensures othersActive ==> r.port == u.port
    ensures Extends(u.port, r.port)
    ensures !othersActive ==>
      && NewWrites(u.port, r.port) == [Access(SSCR0, r.port.regs.sscr0)]
      && OnlyChanged(u.port.regs, r.port.regs, {SSCR0})
      && ClearsBits(u.port.regs.sscr0, r.port.regs.sscr0, {SSE})
      && !Enabled(r)
  {
    var p := if !othersActive then Write(u.port, SSCR0, Read(u.port, SSCR0) - {SSE}) else u.port;
    WithDma(u.(port := p), dir, None)
  }
}
