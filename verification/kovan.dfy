/**
 * The Kovan FPGA character device header: the split of a minor number into
 * a device type (high nibble) and a device number (low nibble), and the
 * ioctl commands with their magic 'c' and numbers 1 to FPGA_IOC_MAXNR.
 *
 * Command words follow the generic Linux ioctl layout: number in bits 0..7,
 * type in bits 8..15, argument size in bits 16..29, direction in bits 30..31
 * (1 for a write to the driver, 2 for a read from it).
 */
module KovanFpga {
  import opened Wrappers

  // ---- Minor numbers -------------------------------------------------------------

  /** TYPE(minor): the high nibble of the low byte. */
  function Type(minor: nat): (t: nat)
    ensures t < 16
  {
    minor / 16 % 16
  }

  /** NUM(minor): the low nibble. */
  function Num(minor: nat): (n: nat)
    ensures n < 16
  {
    minor % 16
  }

  /** The minor number with device type `t` and device number `n`. */
  function Minor(t: nat, n: nat): (m: nat)
    requires t < 16 && n < 16
    ensures m < 256
  {
    t * 16 + n
  }

  /** Every minor below 256 is rebuilt from its two nibbles. */
  lemma SplitThenJoin(m: nat)
    requires m < 256
    ensures Minor(Type(m), Num(m)) == m
  {
  }

  /** The nibbles of a built minor are the ones it was built from. */
  lemma JoinThenSplit(t: nat, n: nat)
    requires t < 16 && n < 16
    ensures Type(Minor(t, n)) == t && Num(Minor(t, n)) == n
  {
  }

  /** Division by 16 with quotient `q` and remainder `r`. */
  lemma DivMod16(x: int, q: int, r: int)
    requires x == 16 * q + r && 0 <= r < 16
    ensures x / 16 == q && x % 16 == r
  {
  }

  /** NUM ignores the high nibble. */
  lemma NumIgnoresHighNibble(m: nat)
    ensures Num(m + 16) == Num(m)
  {
    DivMod16(m + 16, m / 16 + 1, m % 16);
  }

  /** Division by 256 with quotient `q` and remainder `r`. */
  lemma DivMod256(x: int, q: int, r: int)
    requires x == 256 * q + r && 0 <= r < 256
    ensures x % 256 == r
  {
  }

  /** TYPE ignores every bit above the low byte. */
  lemma {:induction false} TypeIgnoresHighBits(m: nat)
    ensures Type(m + 256) == Type(m)
    ensures Type(m) == Type(m % 256)
  {
    var lo, hi := m % 16, m / 16;
    var q, t := hi / 16, hi % 16;
    DivMod16(m, hi, lo);
    DivMod16(hi, q, t);
    assert Type(m) == t;
    DivMod16(m + 256, hi + 16, lo);
    DivMod16(hi + 16, q + 1, t);
    assert Type(m + 256) == t;
    DivMod256(m, q, 16 * t + lo);
    DivMod16(16 * t + lo, t, lo);
    DivMod16(t, 0, t);
    assert Type(16 * t + lo) == t;
  }

  // ---- ioctl commands ------------------------------------------------------------

  const FPGA_IOC_MAGIC: nat := 0x63
  const FPGA_IOC_MAXNR: nat := 7
  /** sizeof(int), the argument size every command declares. */
  const INT_SIZE: nat := 4

  datatype Transfer = IocWrite | IocRead

  datatype Command = WTest | RTest | Reset | Led0 | Led1 | Done | InitFpga

  /** The command's number, as passed to _IOW / _IOR. */
  function Nr(c: Command): nat {
    match c
    case WTest => 1
    case RTest => 2
    case Reset => 3
    case Led0 => 4
    case Led1 => 5
    case Done => 6
    case InitFpga => 7
  }

  /** _IOW commands pass data to the driver, _IOR commands fetch it. */
  function TransferOf(c: Command): Transfer {
    match c
    case WTest => IocWrite
    case RTest => IocRead
    case Reset => IocWrite
    case Led0 => IocWrite
    case Led1 => IocWrite
    case Done => IocRead
    case InitFpga => IocRead
  }

  function DirBits(t: Transfer): nat {
    if t == IocWrite then 1 else 2
  }

  /** The command word of the generic ioctl layout. */
  function Ioc(dir: nat, typ: nat, nr: nat, size: nat): nat {
    dir * 0x4000_0000 + size * 0x1_0000 + typ * 0x100 + nr
  }

  function IocNr(x: nat): nat { x % 0x100 }
  function IocType(x: nat): nat { x / 0x100 % 0x100 }
  function IocSize(x: nat): nat { x / 0x1_0000 % 0x4000 }
  function IocDir(x: nat): nat { x / 0x4000_0000 % 4 }

  /** The 32-bit command word of `c`. */
  function Code(c: Command): (x: nat)
    ensures x < 0x1_0000_0000
    ensures IocNr(x) == Nr(c) && IocType(x) == FPGA_IOC_MAGIC
    ensures IocSize(x) == INT_SIZE && IocDir(x) == DirBits(TransferOf(c))
  {
    Ioc(DirBits(TransferOf(c)), FPGA_IOC_MAGIC, Nr(c), INT_SIZE)
  }

  /** The command with number `nr`, if any. */
  function CommandOf(nr: nat): (r: Option<Command>)
    ensures r.Some? ==> Nr(r.value) == nr
    ensures r.Some? <==> 1 <= nr <= FPGA_IOC_MAXNR
  {
    if nr == 1 then Some(WTest)
    else if nr == 2 then Some(RTest)
    else if nr == 3 then Some(Reset)
    else if nr == 4 then Some(Led0)
    else if nr == 5 then Some(Led1)
    else if nr == 6 then Some(Done)
    else if nr == 7 then Some(InitFpga)
    else None
  }

  /** A 32-bit word is the ioctl word of its own four fields. */
  lemma IocRecompose(x: nat)
    requires x < 0x1_0000_0000
    ensures x == Ioc(IocDir(x), IocType(x), IocNr(x), IocSize(x))
  {
    var n, a := x % 0x100, x / 0x100;
    var t, b := a % 0x100, a / 0x100;
    var s, d := b % 0x4000, b / 0x4000;
    assert x == 0x4000_0000 * d + 0x1_0000 * s + 0x100 * t + n;
    assert x / 0x1_0000 == b;
    assert x / 0x4000_0000 == d;
  }

  /** The command a word names: right magic, size and direction, and a number in 1..FPGA_IOC_MAXNR. */
  function Decode(x: nat): (r: Option<Command>)
    ensures r.Some? ==> Code(r.value) == x
    ensures IocType(x) != FPGA_IOC_MAGIC || IocNr(x) == 0 || IocNr(x) > FPGA_IOC_MAXNR ==> r.None?
  {
    if x >= 0x1_0000_0000 || IocType(x) != FPGA_IOC_MAGIC || IocSize(x) != INT_SIZE then None
    else match CommandOf(IocNr(x))
      case None => None
      case Some(c) =>
        if IocDir(x) == DirBits(TransferOf(c)) then
          IocRecompose(x);
          Some(c)
        else None
  }

  /** Every command's number lies in 1..FPGA_IOC_MAXNR and no two commands share a number or a word. */
  lemma CommandsDistinct(c: Command, d: Command)
    ensures 1 <= Nr(c) <= FPGA_IOC_MAXNR
    ensures c != d ==> Nr(c) != Nr(d) && Code(c) != Code(d)
  {
    if c != d {
      assert Nr(c) != Nr(d);
      var x, y := Code(c), Code(d);
      assert IocNr(x) != IocNr(y);
    }
  }

  /** A command's number names that command. */
  lemma CommandOfNr(c: Command)
    ensures CommandOf(Nr(c)) == Some(c)
  {
  }

  /** Each command's word decodes back to that command. */
  lemma DecodeCode(c: Command)
    ensures Decode(Code(c)) == Some(c)
  {
    CommandOfNr(c);
  }
}
