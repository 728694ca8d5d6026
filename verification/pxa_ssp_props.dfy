/**
 * Properties of sequences of PXA3xx SSP DAI callbacks: how trigger commands
 * undo one another, why a format change after STOP is silently ignored, and
 * that every clock-divider setting replaces the previous one.
 */
module PxaSspProps {
  import opened Wrappers
  import opened Errno
  import opened SspRegs
  import opened PxaSspDai

  // ---- trigger ---------------------------------------------------------------

  /** STOP and PAUSE_PUSH are the same operation. */
  lemma StopIsPausePush(u: Unit, d: Direction)
    ensures Trigger(u, d, TRIGGER_STOP) == Trigger(u, d, TRIGGER_PAUSE_PUSH)
  {
  }

  /**
   * STOP leaves the port enabled: after START then STOP the enable bit is
   * still set, so a following set_dai_fmt succeeds without touching anything.
   */
  lemma StopKeepsPortEnabled(u: Unit, d: Direction, fmt: nat)
    ensures var s := Trigger(Trigger(u, d, TRIGGER_START).unit, d, TRIGGER_STOP).unit;
      Enabled(s) && SetDaiFmt(s, fmt) == Outcome(0, s)
  {
    var s := Trigger(Trigger(u, d, TRIGGER_START).unit, d, TRIGGER_STOP).unit;
    assert SSE in s.port.regs.sscr0;
  }

  /** A restart after STOP programs the same registers as the first START. */
  lemma RestartAfterStop(u: Unit, d: Direction)
    ensures var a := Trigger(u, d, TRIGGER_START).unit;
      Trigger(Trigger(a, d, TRIGGER_STOP).unit, d, TRIGGER_START).unit.port.regs == a.port.regs
  {
    var a := Trigger(u, d, TRIGGER_START).unit;
    var b := Trigger(a, d, TRIGGER_STOP).unit;
    var c := Trigger(b, d, TRIGGER_START).unit;
    assert ServiceRequest(d) in StartBits(d);
    assert c.port.regs.sscr1 == a.port.regs.sscr1;
  }

  /** RESUME undoes SUSPEND on a running port. */
  lemma SuspendResume(u: Unit, d: Direction)
    requires Enabled(u)
    ensures Trigger(Trigger(u, d, TRIGGER_SUSPEND).unit, d, TRIGGER_RESUME).unit.port.regs == u.port.regs
  {
    var s := Trigger(u, d, TRIGGER_SUSPEND).unit;
    var r := Trigger(s, d, TRIGGER_RESUME).unit;
    assert r.port.regs.sscr0 == u.port.regs.sscr0;
  }

  /** PAUSE_RELEASE undoes PAUSE_PUSH on a streaming direction. */
  lemma PauseRelease(u: Unit, d: Direction)
    requires ServiceRequest(d) in u.port.regs.sscr1
    ensures Trigger(Trigger(u, d, TRIGGER_PAUSE_PUSH).unit, d, TRIGGER_PAUSE_RELEASE).unit.port.regs == u.port.regs
  {
    var s := Trigger(u, d, TRIGGER_PAUSE_PUSH).unit;
    var r := Trigger(s, d, TRIGGER_PAUSE_RELEASE).unit;
    assert r.port.regs.sscr1 == u.port.regs.sscr1;
  }

  /** Playback and capture arm different service requests, so stopping one leaves the other streaming. */
  lemma StopLeavesOtherDirection(u: Unit)
    requires ServiceRequest(Capture) in u.port.regs.sscr1
    ensures ServiceRequest(Capture) in Trigger(u, Playback, TRIGGER_STOP).unit.port.regs.sscr1
  {
  }

  // ---- set_dai_fmt -----------------------------------------------------------

  /**
   * Any set_dai_fmt on a disabled port leaves it disabled, so repeating the
   * call starts from the same reset and gives the same result.
   */
  lemma SetDaiFmtRepeat(u: Unit, fmt: nat)
    requires !Enabled(u)
    ensures var a := SetDaiFmt(u, fmt);
      !Enabled(a.unit)
      && SetDaiFmt(a.unit, fmt).status == a.status
      && SetDaiFmt(a.unit, fmt).unit.port.regs == a.unit.port.regs
  {
    var a := SetDaiFmt(u, fmt);
    assert SSE !in PSP_SSCR0;
    assert !Enabled(a.unit);
  }

  // ---- hw_params -------------------------------------------------------------

  /**
   * hw_params may be called again with the same parameters (OSS emulation
   * does so): the second call gives the same status, registers and descriptor.
   */
  lemma HwParamsRepeat(u: Unit, dir: Direction, format: int)
    requires u.id < 4
    ensures var a := HwParams(u, dir, format, true);
      var b := HwParams(a.unit, dir, format, true);
      && b.status == a.status
      && b.unit.port.regs == a.unit.port.regs
      && Dma(b.unit, dir) == Dma(a.unit, dir)
  {
    var a := HwParams(u, dir, format, true);
    var b := HwParams(a.unit, dir, format, true);
    if a.status == 0 {
      assert b.unit.port.regs.sscr0 == a.unit.port.regs.sscr0;
      assert b.unit.port.regs.sspsp == a.unit.port.regs.sspsp;
      assert b.unit.port.regs == a.unit.port.regs;
    }
  }

  /**
   * hw_params only ever ORs bits in. On an I2S port, S16_LE then S32_LE
   * leaves both frame widths set in SSPSP. S32_LE then S16_LE keeps EDSS, so
   * the 16-bit stream is given a 4-byte DMA width.
   */
  lemma FrameWidthAccumulates(u: Unit, dir: Direction)
    requires u.id < 4 && u.daiFmt == I2S
    ensures var a := HwParams(u, dir, S16_LE, true).unit;
      FrameWidth(16) + FrameWidth(32) <= HwParams(a, dir, S32_LE, true).unit.port.regs.sspsp
    ensures var c := HwParams(HwParams(u, dir, S32_LE, true).unit, dir, S16_LE, true).unit;
      EDSS in c.port.regs.sscr0 && WidthBytes(Dma(c, dir).value.dcmd) == 4
  {
    var a := HwParams(u, dir, S16_LE, true).unit;
    assert FrameWidth(16) <= a.port.regs.sspsp;
    var b := HwParams(u, dir, S32_LE, true).unit;
    assert EDSS in b.port.regs.sscr0;
  }

  // ---- set_clkdiv ------------------------------------------------------------

  /** A second SCDB setting replaces the first, even when the first was rejected. */
  lemma ScdbLastWins(u: Unit, a: int, b: int)
    ensures var v := SetClkdiv(u, DIV_SCDB, a).unit;
      SetClkdiv(v, DIV_SCDB, b).unit.port.regs == SetClkdiv(u, DIV_SCDB, b).unit.port.regs
  {
    var v := SetClkdiv(u, DIV_SCDB, a).unit;
    var x := SetClkdiv(v, DIV_SCDB, b).unit;
    var y := SetClkdiv(u, DIV_SCDB, b).unit;
    assert x.port.regs.ssacd == y.port.regs.ssacd;
  }

  /** A second audio clock divider select below 8 replaces the first. */
  lemma {:induction false} AcdsLastWins(u: Unit, a: int, b: int)
    requires 0 <= a < 8
    ensures var v := SetClkdiv(u, DIV_ACDS, a).unit;
      SetClkdiv(v, DIV_ACDS, b).unit.port.regs == SetClkdiv(u, DIV_ACDS, b).unit.port.regs
  {
    AcdsWithinField(a);
    var v := SetClkdiv(u, DIV_ACDS, a).unit;
    assert v.port.regs.ssacd - ACDS_FIELD == u.port.regs.ssacd - ACDS_FIELD;
  }

  /** A second serial clock rate of 1 to 4096 replaces the first. */
  lemma {:induction false} ScrLastWins(u: Unit, a: int, b: int)
    requires 1 <= a <= 4096
    ensures var v := SetClkdiv(u, DIV_SCR, a).unit;
      SetClkdiv(v, DIV_SCR, b).unit.port.regs == SetClkdiv(u, DIV_SCR, b).unit.port.regs
  {
    SerClkDivWithinField(a);
    var v := SetClkdiv(u, DIV_SCR, a).unit;
    assert v.port.regs.sscr0 - SCR == u.port.regs.sscr0 - SCR;
  }

  /**
   * The divider select is OR-ed in unmasked: a divider of 8 or more spills
   * into the neighbouring SYSCLK divider bits of SSACD.
   */
  lemma AcdsSpillsIntoScdb(u: Unit)
    ensures SCDB in SetClkdiv(u, DIV_ACDS, 8).unit.port.regs.ssacd
  {
    assert 8 / Pow2(3) % 2 == 1;
  }
}
