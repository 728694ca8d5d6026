/**
 * The ES8328 codec driver. The chip's registers cannot be read back, so the
 * driver keeps a zero-initialised byte cache of all ES8328_REG_MAX registers:
 * a write goes to the chip and to the cache, a read is served from the cache.
 * The codec state is that cache, the bias level, the bias level the framework
 * saved at suspend time, and the log of register writes sent to the chip since
 * the cache was allocated.
 *
 * Calls into code defined outside this driver (the ALSA core's cache-I/O
 * set-up, PCM creation, the allocator) become parameters holding their outcome.
 */
module Es8328 {
  import opened Wrappers
  import opened Errno

  // ---- Register map ------------------------------------------------------------

  const REG_MAX: nat := 0x35

  /** A register address the cache covers. */
  type Reg = a: nat | a < REG_MAX

  const CONTROL1: Reg := 0x00
  const CONTROL2: Reg := 0x01
  const CHIPPOWER: Reg := 0x02
  const ADCPOWER: Reg := 0x03
  const DACPOWER: Reg := 0x04
  const MASTERMODE: Reg := 0x08
  const DACCONTROL1: Reg := 0x17
  const DACCONTROL2: Reg := 0x18
  const DACCONTROL3: Reg := 0x19
  const DACCONTROL4: Reg := 0x1a
  const DACCONTROL5: Reg := 0x1b
  const DACCONTROL7: Reg := 0x1d
  const DACCONTROL16: Reg := 0x26
  const DACCONTROL17: Reg := 0x27
  const DACCONTROL18: Reg := 0x28
  const DACCONTROL19: Reg := 0x29
  const DACCONTROL20: Reg := 0x2a

  /** The soft-mute bit of DACCONTROL3. */
  const MUTE_BIT: bv8 := 4

  // ---- State -------------------------------------------------------------------

  datatype BiasLevel = BiasOn | BiasPrepare | BiasStandby | BiasOff

  datatype RegWrite = RegWrite(reg: Reg, value: bv8)

  type Cache = map<Reg, bv8>

  datatype Codec = Codec(cache: Option<Cache>, bias: BiasLevel, suspendBias: BiasLevel, log: seq<RegWrite>)

  datatype Outcome = Outcome(status: int, codec: Codec)

  /** A cache holding a value for every register. */
  predicate Total(m: Cache) {
    forall a: Reg :: a in m
  }

  /** The codec has its register cache, as after a successful init. */
  predicate Ready(c: Codec) {
    c.cache.Some? && Total(c.cache.value)
  }

  /** The cache as allocated: every register zero. */
  const ZERO_CACHE: Cache := map a: Reg | 0 <= a < REG_MAX :: 0

  function Read(c: Codec, a: Reg): bv8
    requires Ready(c)
  {
    c.cache.value[a]
  }

  /** A register write: the chip is sent the value and the cache records it. */
  function Write(c: Codec, a: Reg, v: bv8): (d: Codec)
    requires Ready(c)
    ensures Ready(d)
    ensures Read(d, a) == v
    ensures forall b: Reg :: b != a ==> Read(d, b) == Read(c, b)
    ensures d.log == c.log + [RegWrite(a, v)]
    ensures d.bias == c.bias && d.suspendBias == c.suspendBias
  {
    c.(cache := Some(c.cache.value[a := v]), log := c.log + [RegWrite(a, v)])
  }

  // ---- The cache mirrors the chip ------------------------------------------------

  /** The cache obtained by applying the writes `ws`, oldest first, to `base`. */
  function Replay(base: Cache, ws: seq<RegWrite>): (m: Cache)
    ensures Total(base) ==> Total(m)
  {
    if ws == [] then base
    else Replay(base, ws[..|ws| - 1])[ws[|ws| - 1].reg := ws[|ws| - 1].value]
  }

  /** Whether `ws` writes register `a` at all. */
  predicate Written(ws: seq<RegWrite>, a: Reg) {
    exists i :: 0 <= i < |ws| && ws[i].reg == a
  }

  /** The value of the last write to `a` in `ws`; `dflt` when there is none. */
  function LastWritten(ws: seq<RegWrite>, a: Reg, dflt: bv8): bv8 {
    if ws == [] then dflt
    else if ws[|ws| - 1].reg == a then ws[|ws| - 1].value
    else LastWritten(ws[..|ws| - 1], a, dflt)
  }

  /**
   * Replaying writes leaves in each register the last value written to it,
   * and its base value when it is never written.
   */
  lemma {:induction false} ReplayIsLastWrite(base: Cache, ws: seq<RegWrite>, a: Reg)
    requires Total(base)
    ensures Replay(base, ws)[a] == LastWritten(ws, a, base[a])
    ensures !Written(ws, a) ==> Replay(base, ws)[a] == base[a]
  {
    if ws != [] {
      var init := ws[..|ws| - 1];
      ReplayIsLastWrite(base, init, a);
      if !Written(ws, a) {
        assert ws[|ws| - 1].reg != a;
        assert !Written(init, a) by {
          forall i | 0 <= i < |init|
            ensures init[i].reg != a
          {
            assert init[i] == ws[i];
          }
        }
      }
    }
  }

  /** A register `ws` never writes keeps the default. */
  lemma {:induction false} LastWrittenUnwritten(ws: seq<RegWrite>, a: Reg, dflt: bv8)
    requires !Written(ws, a)
    ensures LastWritten(ws, a, dflt) == dflt
  {
    if ws != [] {
      var init := ws[..|ws| - 1];
      assert !Written(init, a) by {
        forall i | 0 <= i < |init|
          ensures init[i].reg != a
        {
          assert init[i] == ws[i];
        }
      }
      LastWrittenUnwritten(init, a, dflt);
    }
  }

  /** When entry `i` writes `a` and no later entry does, entry `i` is the last write. */
  lemma {:induction false} LastWrittenAt(ws: seq<RegWrite>, a: Reg, dflt: bv8, i: nat)
    requires i < |ws| && ws[i].reg == a
    requires forall j :: i < j < |ws| ==> ws[j].reg != a
    ensures LastWritten(ws, a, dflt) == ws[i].value
  {
    if i < |ws| - 1 {
      LastWrittenAt(ws[..|ws| - 1], a, dflt, i);
    }
  }

  /** The cache is exactly what replaying the logged writes onto the zeroed cache gives. */
  predicate Coherent(c: Codec) {
    c.cache == Some(Replay(ZERO_CACHE, c.log))
  }

  /** A coherent cache reads back the last value sent to the chip, and zero for a register never written. */
  lemma CoherentReadsLastWrite(c: Codec, a: Reg)
    requires Coherent(c)
    ensures Ready(c)
    ensures Read(c, a) == LastWritten(c.log, a, 0)
    ensures !Written(c.log, a) ==> Read(c, a) == 0
  {
    ReplayIsLastWrite(ZERO_CACHE, c.log, a);
  }

  lemma WritePreservesCoherent(c: Codec, a: Reg, v: bv8)
    requires Ready(c)
    ensures Coherent(c) ==> Coherent(Write(c, a, v))
  {
    var d := Write(c, a, v);
    assert d.log[..|d.log| - 1] == c.log;
  }

  // ---- DAI callbacks -------------------------------------------------------------

  /**
   * digital_mute: a read-modify-write of DACCONTROL3 that sets the soft-mute
   * bit for a nonzero `mute` and clears it for zero, keeping every other bit.
   */
  function Mute(c: Codec, mute: int): (r: Outcome)
    requires Ready(c)
    ensures r.status == 0
    ensures Ready(r.codec) && r.codec.bias == c.bias && r.codec.suspendBias == c.suspendBias
    ensures r.codec.log == c.log + [RegWrite(DACCONTROL3, Read(r.codec, DACCONTROL3))]
    ensures forall b: Reg :: b != DACCONTROL3 ==> Read(r.codec, b) == Read(c, b)
    ensures Read(r.codec, DACCONTROL3) & MUTE_BIT == (if mute != 0 then MUTE_BIT else 0)
    ensures Read(r.codec, DACCONTROL3) & !MUTE_BIT == Read(c, DACCONTROL3) & !MUTE_BIT
    ensures Coherent(c) ==> Coherent(r.codec)
  {
    var old3 := Read(c, DACCONTROL3);
    var v := if mute != 0 then old3 | MUTE_BIT else old3 & !MUTE_BIT;
    WritePreservesCoherent(c, DACCONTROL3, v);
    Outcome(0, Write(c, DACCONTROL3, v))
  }

  /** set_bias_level: the requested level is recorded for every level, without a register write. */
  function SetBiasLevel(c: Codec, level: BiasLevel): (r: Outcome)
    ensures r.status == 0 && r.codec.bias == level
    ensures r.codec == c.(bias := r.codec.bias)
  {
    Outcome(0, c.(bias := level))
  }

  /** Suspend: bias off. */
  function Suspend(c: Codec): (r: Outcome)
    ensures r.status == 0 && r.codec.bias == BiasOff
    ensures r.codec == c.(bias := r.codec.bias)
  {
    SetBiasLevel(c, BiasOff)
  }

  /** Resume: back to the bias level saved when the codec was suspended. */
  function Resume(c: Codec): (r: Outcome)
    ensures r.status == 0 && r.codec.bias == c.suspendBias
    ensures r.codec == c.(bias := r.codec.bias)
  {
    SetBiasLevel(c, c.suspendBias)
  }

  /** hw_params: CHIPPOWER := 0xaa and success, whatever the sample format. */
  function HwParams(c: Codec, format: int): (r: Outcome)
    requires Ready(c)
    ensures r.status == 0
    ensures Ready(r.codec) && r.codec.bias == c.bias && r.codec.suspendBias == c.suspendBias
    ensures r.codec.log == c.log + [RegWrite(CHIPPOWER, 0xaa)]
    ensures Read(r.codec, CHIPPOWER) == 0xaa
    ensures forall b: Reg :: b != CHIPPOWER ==> Read(r.codec, b) == Read(c, b)
    ensures Coherent(c) ==> Coherent(r.codec)
  {
    WritePreservesCoherent(c, CHIPPOWER, 0xaa);
    Outcome(0, Write(c, CHIPPOWER, 0xaa))
  }

  /** set_fmt: the format checks are compiled out, so every format is accepted and nothing is written. */
  function SetDaiFmt(c: Codec, fmt: nat): (r: Outcome)
    ensures r.status == 0 && r.codec == c
  {
    Outcome(0, c)
  }

  // ---- init ----------------------------------------------------------------------

  /** The register writes of a successful init, in the order they are issued. */
  const INIT_WRITES: seq<RegWrite> := [
    RegWrite(MASTERMODE, 0xc0),
    RegWrite(CHIPPOWER, 0xf3),
    RegWrite(CONTROL1, 0x05),
    RegWrite(CONTROL2, 0x40),
    RegWrite(ADCPOWER, 0xfc),
    RegWrite(DACPOWER, 0x48),
    RegWrite(DACCONTROL1, 0x18),
    RegWrite(DACCONTROL2, 0x02),
    RegWrite(DACCONTROL4, 0x00),
    RegWrite(DACCONTROL5, 0x00),
    RegWrite(DACCONTROL16, 0x09),
    RegWrite(DACCONTROL17, 0x80),
    RegWrite(DACCONTROL18, 0x00),
    RegWrite(DACCONTROL19, 0x00),
    RegWrite(DACCONTROL20, 0x00),
    RegWrite(DACCONTROL7, 0x66),
    RegWrite(CHIPPOWER, 0x00),
    RegWrite(DACCONTROL3, 0x30)
  ]

  /** Applies `ws` to the codec one write at a time. */
  function WriteAll(c: Codec, ws: seq<RegWrite>): (d: Codec)
    requires Coherent(c)
    ensures Coherent(d) && Ready(d)
    ensures d.log == c.log + ws
    ensures d.bias == c.bias && d.suspendBias == c.suspendBias
    decreases |ws|
  {
    if ws == [] then
      assert c.log + ws == c.log;
      CoherentReadsLastWrite(c, 0);
      c
    else
      WritePreservesCoherent(c, ws[0].reg, ws[0].value);
      var d := WriteAll(Write(c, ws[0].reg, ws[0].value), ws[1..]);
      assert c.log + [ws[0]] + ws[1..] == c.log + ws;
      d
  }

  /**
   * The register contents a successful init leaves behind: the last value
   * the init sequence writes to each register, zero for the others.
   */
  function PowerOnValue(a: Reg): bv8 {
    if a == MASTERMODE then 0xc0
    else if a == CONTROL1 then 0x05
    else if a == CONTROL2 then 0x40
    else if a == ADCPOWER then 0xfc
    else if a == DACPOWER then 0x48
    else if a == DACCONTROL1 then 0x18
    else if a == DACCONTROL2 then 0x02
    else if a == DACCONTROL16 then 0x09
    else if a == DACCONTROL17 then 0x80
    else if a == DACCONTROL7 then 0x66
    else if a == DACCONTROL3 then 0x30
    else 0
  }

  /** The last value the init sequence writes to each register is its power-on value. */
  lemma InitSequenceTable(a: Reg)
    ensures LastWritten(INIT_WRITES, a, 0) == PowerOnValue(a)
  {
    var w := INIT_WRITES;
    if a == MASTERMODE { LastWrittenAt(w, a, 0, 0);
    } else if a == CONTROL1 { LastWrittenAt(w, a, 0, 2);
    } else if a == CONTROL2 { LastWrittenAt(w, a, 0, 3);
    } else if a == ADCPOWER { LastWrittenAt(w, a, 0, 4);
    } else if a == DACPOWER { LastWrittenAt(w, a, 0, 5);
    } else if a == DACCONTROL1 { LastWrittenAt(w, a, 0, 6);
    } else if a == DACCONTROL2 { LastWrittenAt(w, a, 0, 7);
    } else if a == DACCONTROL4 { LastWrittenAt(w, a, 0, 8);
    } else if a == DACCONTROL5 { LastWrittenAt(w, a, 0, 9);
    } else if a == DACCONTROL16 { LastWrittenAt(w, a, 0, 10);
    } else if a == DACCONTROL17 { LastWrittenAt(w, a, 0, 11);
    } else if a == DACCONTROL18 { LastWrittenAt(w, a, 0, 12);
    } else if a == DACCONTROL19 { LastWrittenAt(w, a, 0, 13);
    } else if a == DACCONTROL20 { LastWrittenAt(w, a, 0, 14);
    } else if a == DACCONTROL7 { LastWrittenAt(w, a, 0, 15);
    } else if a == CHIPPOWER {
      // 0xf3 is written second and overwritten by entry 16
      LastWrittenAt(w, a, 0, 16);
    } else if a == DACCONTROL3 { LastWrittenAt(w, a, 0, 17);
    } else {
      LastWrittenUnwritten(w, a, 0);
    }
  }

  /** A coherent codec whose log is exactly the init sequence holds the power-on values. */
  lemma InitCache(d: Codec)
    requires Coherent(d) && d.log == INIT_WRITES
    ensures Ready(d)
    ensures forall a: Reg :: Read(d, a) == PowerOnValue(a)
  {
    forall a: Reg
      ensures Ready(d) && Read(d, a) == PowerOnValue(a)
    {
      CoherentReadsLastWrite(d, a);
      InitSequenceTable(a);
    }
  }

  /**
   * init. The bias is set to off and the cache allocated (outcome `allocOk`);
   * then the framework's cache-I/O set-up and PCM creation run, whose
   * statuses are `cacheIoStatus` and `pcmStatus`. A negative status frees
   * the cache and is returned. Otherwise the bias goes to standby, the fixed
   * register sequence is written and the PCM status is returned.
   */
  function Init(c: Codec, allocOk: bool, cacheIoStatus: int, pcmStatus: int): (r: Outcome)
    ensures !allocOk ==> r.status == -ENOMEM
    ensures allocOk && cacheIoStatus < 0 ==> r.status == cacheIoStatus
    ensures allocOk && cacheIoStatus >= 0 && pcmStatus < 0 ==> r.status == pcmStatus
    ensures r.status >= 0 <==> allocOk && cacheIoStatus >= 0 && pcmStatus >= 0
    // a failed init frees the cache, writes nothing and leaves the bias off
    ensures r.status < 0 ==> r.codec == Codec(None, BiasOff, c.suspendBias, [])
    // a successful one ends in standby with exactly the init sequence written
    ensures r.status >= 0 ==>
      && r.status == pcmStatus
      && Ready(r.codec) && Coherent(r.codec)
      && r.codec.bias == BiasStandby && r.codec.suspendBias == c.suspendBias
      && r.codec.log == INIT_WRITES
      // the final cache is fully determined
      && (forall a: Reg :: Read(r.codec, a) == PowerOnValue(a))
  {
    var off := c.(bias := BiasOff, cache := None, log := []);
    if !allocOk then Outcome(-ENOMEM, off)
    else if cacheIoStatus < 0 then Outcome(cacheIoStatus, off)
    else if pcmStatus < 0 then Outcome(pcmStatus, off)
    else
      var zeroed := off.(cache := Some(ZERO_CACHE), bias := BiasStandby);
      assert Coherent(zeroed);
      var d := WriteAll(zeroed, INIT_WRITES);
      InitCache(d);
      Outcome(pcmStatus, d)
  }
}
