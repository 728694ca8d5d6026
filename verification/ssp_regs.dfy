/**
 * The register file of one PXA3xx SSP unit as the audio DAI driver sees it.
 *
 * A 32-bit register value is the set of its bit positions that are 1: bitwise
 * OR is union, AND with a complement is difference, testing a bit is
 * membership. Memory-mapped registers are plain state (a read returns what
 * was last written), and every write is also appended to a trace, so that
 * "no register was written" and "these writes were issued before the error"
 * can be stated.
 *
 * Bit positions are those of the PXA2xx/PXA3xx SSP register header; the
 * properties proved elsewhere are stated through these names only.
 */
module SspRegs {

  type Bit = i: int | 0 <= i < 32

  /** A 32-bit register value, as the set of its one bits. */
  type Word = set<Bit>

  /** 2 to the power `n`. */
  function Pow2(n: nat): (r: nat)
    ensures r >= 1
  {
    if n == 0 then 1 else 2 * Pow2(n - 1)
  }

  /** The bits of a C integer converted to a 32-bit unsigned value (two's complement). */
  function BitsOf(v: int): Word {
    set i: Bit | ((v % 0x1_0000_0000) / Pow2(i)) % 2 == 1
  }

  /** The registers the DAI driver touches. */
  datatype Reg = SSCR0 | SSCR1 | SSPSP | SSACD | SSSR

  datatype Regs = Regs(sscr0: Word, sscr1: Word, sspsp: Word, ssacd: Word, sssr: Word)

  /** One MMIO write: register and value. */
  datatype Access = Access(reg: Reg, value: Word)

  /** A unit's registers together with every write issued to them, oldest first. */
  datatype Port = Port(regs: Regs, trace: seq<Access>)

  // ---- SSCR0 -------------------------------------------------------------

  /** Synchronous serial port enable. */
  const SSE: Bit := 7
  /** Extended data size select. */
  const EDSS: Bit := 20
  /** FIFO packing enable. */
  const FPCKE: Bit := 29
  /** Network mode. */
  const MOD: Bit := 31
  /** Frame format field value 3 (programmable serial protocol), bits 4..5. */
  const PSP: Word := {4, 5}
  /** Serial clock rate field, bits 8..19. */
  const SCR: Word := set i: Bit | 8 <= i < 20
  /** Data size field value for 16-bit words: 16 - 1, bits 0..3. */
  const DATA_SIZE_16: Word := {0, 1, 2, 3}

  /** Serial clock rate field value for divisor `x`: (x - 1) shifted to bit 8, unmasked. */
  function SerClkDiv(x: int): Word {
    BitsOf((x - 1) * 256)
  }

  // ---- SSCR1 -------------------------------------------------------------

  /** Receive service request enable (receive DMA). */
  const RSRE: Bit := 20
  /** Transmit service request enable (transmit DMA). */
  const TSRE: Bit := 21
  /** Trailing bytes handled by DMA. */
  const TRAIL: Bit := 22
  /** Receive without transmit. */
  const RWOT: Bit := 23
  /** Frame direction: the frame clock is an input. */
  const SFRMDIR: Bit := 24
  /** Clock direction: the bit clock is an input. */
  const SCLKDIR: Bit := 25
  /** Transmit FIFO threshold field value for 7 entries: 7 - 1 at bit 6. */
  const TX_THRESH_7: Word := {7, 8}
  /** Receive FIFO threshold field value for 8 entries: 8 - 1 at bit 10. */
  const RX_THRESH_8: Word := {10, 11, 12}

  // ---- SSPSP -------------------------------------------------------------

  /** Serial frame polarity. */
  const SFRMP: Bit := 2
  /** Frame sync relative timing: frame asserted one bit clock early. */
  const FSRT: Bit := 25

  /** Serial frame width field value (16 << 16 or 32 << 16) for 16- and 32-bit samples. */
  function FrameWidth(bits: nat): Word
    requires bits == 16 || bits == 32
  {
    if bits == 16 then {20} else {21}
  }

  // ---- SSACD -------------------------------------------------------------

  /** Audio clock divider select field, bits 0..2. */
  const ACDS_FIELD: Word := {0, 1, 2}
  /** SYSCLK divider bypass. */
  const SCDB: Bit := 3
  /** SYSCLK divide by 8. */
  const SCDX8: Bit := 7

  /** Audio clock divider select value: the divider itself at bit 0, unmasked. */
  function Acds(x: int): Word {
    BitsOf(x)
  }

  // ---- Register access -----------------------------------------------------

  function Get(regs: Regs, r: Reg): Word {
    match r
    case SSCR0 => regs.sscr0
    case SSCR1 => regs.sscr1
    case SSPSP => regs.sspsp
    case SSACD => regs.ssacd
    case SSSR => regs.sssr
  }

  function Read(p: Port, r: Reg): Word {
    Get(p.regs, r)
  }

  /** Every register outside `rs` holds the same value in `before` and `after`. */
  predicate OnlyChanged(before: Regs, after: Regs, rs: set<Reg>) {
    forall r :: r !in rs ==> Get(after, r) == Get(before, r)
  }

  /** `after` has every bit of `mask` set and agrees with `before` on every other bit. */
  predicate SetsBits(before: Word, after: Word, mask: Word) {
    mask <= after && after - mask == before - mask
  }

  /** `after` has every bit of `mask` clear and agrees with `before` on every other bit. */
  predicate ClearsBits(before: Word, after: Word, mask: Word) {
    after * mask == {} && after - mask == before - mask
  }

  /** A raw MMIO write: the register takes `v`, the others keep their value, the trace grows by one. */
  function Write(p: Port, r: Reg, v: Word): (q: Port)
    ensures Read(q, r) == v
    ensures forall o :: o != r ==> Read(q, o) == Read(p, o)
    ensures Extends(p, q) && NewWrites(p, q) == [Access(r, v)]
  {
    var regs := match r
      case SSCR0 => p.regs.(sscr0 := v)
      case SSCR1 => p.regs.(sscr1 := v)
      case SSPSP => p.regs.(sspsp := v)
      case SSACD => p.regs.(ssacd := v)
      case SSSR => p.regs.(sssr := v);
    Port(regs, p.trace + [Access(r, v)])
  }

  /** The trace of `q` continues the trace of `p`. */
  predicate Extends(p: Port, q: Port) {
    |p.trace| <= |q.trace| && q.trace[..|p.trace|] == p.trace
  }

  /** The writes issued between `p` and `q`. */
  function NewWrites(p: Port, q: Port): seq<Access>
    requires Extends(p, q)
  {
    q.trace[|p.trace|..]
  }

  /** Extension is transitive, and the writes between `p` and `r` are those up to `q` followed by those after it. */
  lemma ExtendsTrans(p: Port, q: Port, r: Port)
    requires Extends(p, q) && Extends(q, r)
    ensures Extends(p, r)
    ensures NewWrites(p, r) == NewWrites(p, q) + NewWrites(q, r)
  {
    assert r.trace[..|p.trace|] == r.trace[..|q.trace|][..|p.trace|];
    assert r.trace[|p.trace|..] == r.trace[|p.trace|..|q.trace|] + r.trace[|q.trace|..];
  }

  // ---- Field bounds ----------------------------------------------------------

  lemma {:induction false} Pow2Monotone(a: nat, b: nat)
    requires a <= b
    ensures Pow2(a) <= Pow2(b)
    decreases b
  {
    if a < b {
      Pow2Monotone(a, b - 1);
    }
  }

  lemma {:induction false} Pow2Add(a: nat, b: nat)
    ensures Pow2(a + b) == Pow2(a) * Pow2(b)
    decreases a
  {
    if a > 0 {
      Pow2Add(a - 1, b);
    }
  }

  /** The bit at position `i` of a value that already fits in 32 bits. */
  lemma BitOfSmall(v: int, i: Bit)
    requires 0 <= v < 0x1_0000_0000
    ensures i in BitsOf(v) <==> (v / Pow2(i)) % 2 == 1
  {
    assert v % 0x1_0000_0000 == v;
  }

  lemma DivBelow(a: int, b: int)
    requires 0 <= a < b
    ensures a / b == 0
  {
  }

  lemma MulBounds(x: int, b: int)
    requires b > 0
    ensures x >= 1 ==> x * b >= b
    ensures x <= -1 ==> x * b <= -b
  {
  }

  lemma DivExact(q: int, b: int)
    requires b > 0
    ensures (q * b) / b == q
  {
    var d, r := (q * b) / b, (q * b) % b;
    assert (q - d) * b == r;
    MulBounds(q - d, b);
  }

  /** A value below 2^k has no one bit at position k or above. */
  lemma {:induction false} BitsBelow(v: int, k: nat)
    requires 0 <= v < Pow2(k) && v < 0x1_0000_0000
    ensures forall i :: i in BitsOf(v) ==> i < k
  {
    forall i: Bit | k <= i
      ensures i !in BitsOf(v)
    {
      Pow2Monotone(k, i);
      DivBelow(v, Pow2(i));
      BitOfSmall(v, i);
    }
  }

  /** Reassociates `w * 2^(i + e)` as an even multiple of `2^i`. */
  lemma {:induction false} SplitPow2(w: nat, i: nat, e: nat)
    requires e >= 1
    ensures w * Pow2(i + e) == (2 * (w * Pow2(e - 1))) * Pow2(i)
  {
    Pow2Add(i, e);
    var p, q := Pow2(i), Pow2(e - 1);
    assert Pow2(e) == 2 * q;
    assert w * (p * (2 * q)) == (2 * (w * q)) * p;
  }

  /** An even multiple of `p` divided by `p` is even. */
  lemma EvenQuotient(v: int, h: int, p: int)
    requires p > 0 && v == (2 * h) * p
    ensures (v / p) % 2 == 0
  {
    DivExact(2 * h, p);
  }

  lemma {:induction false} BitAbove(w: nat, k: nat, i: Bit)
    requires i < k && w * Pow2(k) < 0x1_0000_0000
    ensures i !in BitsOf(w * Pow2(k))
  {
    var v, h, p := w * Pow2(k), w * Pow2(k - i - 1), Pow2(i);
    SplitPow2(w, i, k - i);
    EvenQuotient(v, h, p);
    BitOfSmall(v, i);
  }

  /** A multiple of 2^k has no one bit below position k. */
  lemma {:induction false} BitsAbove(w: nat, k: nat)
    requires w * Pow2(k) < 0x1_0000_0000
    ensures forall i :: i in BitsOf(w * Pow2(k)) ==> k <= i
  {
    forall i: Bit | i < k
      ensures i !in BitsOf(w * Pow2(k))
    {
      BitAbove(w, k, i);
    }
  }

  /** An audio clock divider select below 8 stays inside its three-bit field. */
  lemma AcdsWithinField(x: int)
    requires 0 <= x < 8
    ensures Acds(x) <= ACDS_FIELD
  {
    assert Pow2(3) == 8;
    BitsBelow(x, 3);
  }

  /** A serial clock rate divisor of 1 to 4096 stays inside the twelve-bit SCR field. */
  lemma SerClkDivWithinField(x: int)
    requires 1 <= x <= 4096
    ensures SerClkDiv(x) <= SCR
  {
    assert Pow2(8) == 256;
    assert Pow2(20) == 0x10_0000;
    BitsBelow((x - 1) * 256, 20);
    BitsAbove(x - 1, 8);
  }
}
