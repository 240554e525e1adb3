/**
 * The CHIP-8 machine of chip-e (src/chip8.rs).
 *
 * `Machine` is the value view of the interpreter's `CPU` struct; the pure
 * functions below say what each CPU operation does to that value, and the
 * class `CPU` keeps the same state in fixed-size arrays and fields that its
 * methods update in place, each method proved to agree with its function.
 *
 * Rust's u8 and u16 are the subset types `byte` and `word`. A `panic!`, a
 * debug-mode overflow or out-of-range index, and `process::exit` all end the
 * run in the source; here they are an explicit `Stop(fault)` outcome.
 */
module Chip8 {

  type byte = x: int | 0 <= x < 0x100
  type word = x: int | 0 <= x < 0x1_0000

  const MEMORY_SIZE: nat := 4096
  const FONT_START: nat := 0x50
  const PROGRAM_START: nat := 0x200
  const SCREEN_WIDTH: nat := 64
  const SCREEN_HEIGHT: nat := 32
  const SCREEN_CELLS: nat := 64 * 32
  const REGISTERS: nat := 16
  const STACK_DEPTH: nat := 16
  const KEYS: nat := 16
  /** VF, the register that doubles as carry, borrow and collision flag. */
  const VF: nat := 15

  /** The 16 hexadecimal glyphs, 5 rows of 8 pixels each. */
  const FONT_SET: seq<byte> := [
    0xF0, 0x90, 0x90, 0x90, 0xF0, // 0
    0x20, 0x60, 0x20, 0x20, 0x70, // 1
    0xF0, 0x10, 0xF0, 0x80, 0xF0, // 2
    0xF0, 0x10, 0xF0, 0x10, 0xF0, // 3
    0x90, 0x90, 0xF0, 0x10, 0x10, // 4
    0xF0, 0x80, 0xF0, 0x10, 0xF0, // 5
    0xF0, 0x80, 0xF0, 0x90, 0xF0, // 6
    0xF0, 0x10, 0x20, 0x40, 0x40, // 7
    0xF0, 0x90, 0xF0, 0x90, 0xF0, // 8
    0xF0, 0x90, 0xF0, 0x10, 0xF0, // 9
    0xF0, 0x90, 0xF0, 0x90, 0x90, // A
    0xE0, 0x90, 0xE0, 0x90, 0xE0, // B
    0xF0, 0x80, 0x80, 0x80, 0xF0, // C
    0xE0, 0x90, 0x90, 0x90, 0xE0, // D
    0xF0, 0x80, 0xF0, 0x80, 0xF0, // E
    0xF0, 0x80, 0xF0, 0x80, 0x80  // F
  ]

  datatype Option<T> = None | Some(value: T)

  /** A key of the hexadecimal keypad; its discriminant is the key's value. */
  datatype ChipKey =
    | K0 | K1 | K2 | K3 | K4 | K5 | K6 | K7
    | K8 | K9 | KA | KB | KC | KD | KE | KF
  {
    /** The latch a key sets: its position in declaration order, as `key as usize` gives. */
    function Index(): (i: nat)
      ensures i < KEYS && KEYPAD[i] == this
    {
      match this
      case K0 => 0x0 case K1 => 0x1 case K2 => 0x2 case K3 => 0x3
      case K4 => 0x4 case K5 => 0x5 case K6 => 0x6 case K7 => 0x7
      case K8 => 0x8 case K9 => 0x9 case KA => 0xA case KB => 0xB
      case KC => 0xC case KD => 0xD case KE => 0xE case KF => 0xF
    }
  }

  /** The keys in declaration order. */
  const KEYPAD: seq<ChipKey> := [K0, K1, K2, K3, K4, K5, K6, K7, K8, K9, KA, KB, KC, KD, KE, KF]

  /** Distinct keys set distinct latches. */
  lemma KeyIndexInjective(a: ChipKey, b: ChipKey)
    ensures a.Index() == b.Index() ==> a == b
  {
  }

  /** Normal execution, or blocked until a key event writes register x. */
  datatype CpuState = Executing | WaitingForKey(x: word)

  /** The ways a run of the source ends abnormally. */
  datatype Fault =
    | UnknownOpcode(opcode: word) // the panic for an unrecognised FX?? opcode
    | StackUnderflow              // `sp -= 1` at sp = 0 on a return
    | StackOverflow               // `stack[sp]` with sp beyond the 16 entries
    | PcOverflow                  // u16 overflow of the program counter
    | MemoryOutOfBounds           // a memory index of 4096 or more (or u16 overflow of I + row)
    | RegisterOutOfBounds         // `V[x]` with x >= 16 when a key wait resolves
    | AddressPastMemory           // read_mem_byte's `process::exit(0)`

  /** The value of every field of the source's `CPU` struct. */
  datatype Machine = Machine(
    opcode: word,
    memory: seq<byte>,
    V: seq<byte>,
    I: word,
    pc: word,
    gfx: seq<byte>,
    delayTimer: byte,
    soundTimer: byte,
    stack: seq<word>,
    sp: word,
    key: seq<byte>,
    drawFlag: bool,
    state: CpuState)

  /** The result of an operation that may end the run. */
  datatype Outcome = Next(m: Machine) | Stop(fault: Fault)

  /** The array sizes that the source's types fix. */
  predicate WellFormed(m: Machine)
  {
    |m.memory| == MEMORY_SIZE && |m.V| == REGISTERS && |m.gfx| == SCREEN_CELLS &&
    |m.stack| == STACK_DEPTH && |m.key| == KEYS
  }

  /** An imperative run that reported `fault` and left state `after` did what `o` says. */
  ghost predicate Agrees(o: Outcome, fault: Option<Fault>, after: Machine)
  {
    match o
    case Next(m) => fault == None && after == m
    case Stop(f) => fault == Some(f)
  }

  /** Every framebuffer cell is 0 or 1. */
  predicate BinaryPixels(gfx: seq<byte>)
  {
    forall k :: 0 <= k < |gfx| ==> gfx[k] == 0 || gfx[k] == 1
  }

  /** The state `CPU::new` builds: everything zero, executing. */
  function PoweredOn(): (m: Machine)
    ensures WellFormed(m) && BinaryPixels(m.gfx)
    ensures m.state == Executing && m.pc == 0 && m.sp == 0 && !m.drawFlag
    ensures m.opcode == 0 && m.I == 0 && m.delayTimer == 0 && m.soundTimer == 0
    ensures forall a :: 0 <= a < MEMORY_SIZE ==> m.memory[a] == 0
    ensures forall r :: 0 <= r < REGISTERS ==> m.V[r] == 0
    ensures forall k :: 0 <= k < SCREEN_CELLS ==> m.gfx[k] == 0
    ensures forall d :: 0 <= d < STACK_DEPTH ==> m.stack[d] == 0
    ensures forall k :: 0 <= k < KEYS ==> m.key[k] == 0
  {
    Machine(0, seq(MEMORY_SIZE, _ => 0), seq(REGISTERS, _ => 0), 0, 0,
            seq(SCREEN_CELLS, _ => 0), 0, 0, seq(STACK_DEPTH, _ => 0), 0,
            seq(KEYS, _ => 0), false, Executing)
  }

  // ---------------------------------------------------------------------
  // Memory reads

  /** `read_mem_byte`: an address outside the slice ends the process. */
  function ReadMemByte(memory: seq<byte>, addr: word): (r: Option<byte>)
    ensures r.Some? <==> addr < |memory|
  {
    if addr < |memory| then Some(memory[addr]) else None
  }

  /** `read_mem_word`: the big-endian word at pc, pc + 1. */
  function ReadMemWord(memory: seq<byte>, pc: word): (r: Option<word>)
    requires |memory| == MEMORY_SIZE
    ensures r.Some? <==> pc + 1 < MEMORY_SIZE
    ensures r.Some? ==> r.value / 0x100 == memory[pc] && r.value % 0x100 == memory[pc + 1]
  {
    match ReadMemByte(memory, pc)
    case None => None
    case Some(hi) =>
      match ReadMemByte(memory, pc + 1)
      case None => None
      case Some(lo) => Some(hi * 0x100 + lo)
  }

  // ---------------------------------------------------------------------
  // Start-up and program loading

  /** `initialize`: registers reset and the font installed at 0x50. */
  function Initialized(m: Machine): (r: Machine)
    requires WellFormed(m)
    ensures WellFormed(r)
    ensures r.pc == PROGRAM_START && r.I == 0 && r.sp == 0 && r.opcode == 0
    ensures forall a :: 0 <= a < MEMORY_SIZE ==>
      r.memory[a] == if FONT_START <= a < FONT_START + |FONT_SET| then FONT_SET[a - FONT_START] else m.memory[a]
    ensures r.(memory := m.memory, pc := m.pc, I := m.I, sp := m.sp, opcode := m.opcode) == m
  {
    var end := FONT_START + |FONT_SET|;
    m.(pc := PROGRAM_START, opcode := 0, I := 0, sp := 0,
       memory := m.memory[..FONT_START] + FONT_SET + m.memory[end..])
  }

  /** The copy loop of `load_program`: the image goes to 0x200 onwards. */
  function Loaded(m: Machine, bytes: seq<byte>): (r: Outcome)
    requires WellFormed(m)
    ensures r.Stop? <==> |bytes| > MEMORY_SIZE - PROGRAM_START
    ensures r.Stop? ==> r.fault == MemoryOutOfBounds
    ensures r.Next? ==> WellFormed(r.m) && r.m.(memory := m.memory) == m
    ensures r.Next? ==> forall a :: 0 <= a < MEMORY_SIZE ==>
      r.m.memory[a] == if PROGRAM_START <= a < PROGRAM_START + |bytes| then bytes[a - PROGRAM_START] else m.memory[a]
  {
    if |bytes| > MEMORY_SIZE - PROGRAM_START then Stop(MemoryOutOfBounds)
    else
      var end := PROGRAM_START + |bytes|;
      Next(m.(memory := m.memory[..PROGRAM_START] + bytes + m.memory[end..]))
  }

  /** `pc += k` on a u16 program counter. */
  function Advance(m: Machine, k: nat): (r: Outcome)
    ensures r.Next? <==> m.pc + k < 0x1_0000
    ensures r.Next? ==> r.m.pc == m.pc + k && r.m.(pc := m.pc) == m
    ensures r.Stop? ==> r.fault == PcOverflow
  {
    if m.pc + k < 0x1_0000 then Next(m.(pc := m.pc + k)) else Stop(PcOverflow)
  }

  // ---------------------------------------------------------------------
  // Timers

  /** `update_timers`: each nonzero timer counts down by one. */
  function Ticked(m: Machine): (r: Machine)
    ensures r.delayTimer == if m.delayTimer == 0 then 0 else m.delayTimer - 1
    ensures r.soundTimer == if m.soundTimer == 0 then 0 else m.soundTimer - 1
    ensures r.(delayTimer := m.delayTimer, soundTimer := m.soundTimer) == m
  {
    m.(delayTimer := if m.delayTimer > 0 then m.delayTimer - 1 else 0,
       soundTimer := if m.soundTimer > 0 then m.soundTimer - 1 else 0)
  }

  /** Whether a tick from m beeps: the sound timer is about to reach zero. */
  predicate Beeps(m: Machine)
    ensures Beeps(m) <==> m.soundTimer != 0 && Ticked(m).soundTimer == 0
  {
    m.soundTimer == 1
  }

  /** The state after n ticks. */
  function TickedN(m: Machine, n: nat): Machine
    decreases n
  {
    if n == 0 then m else TickedN(Ticked(m), n - 1)
  }

  /** The number of beeps during n ticks. */
  function BeepCount(m: Machine, n: nat): nat
    decreases n
  {
    if n == 0 then 0 else (if Beeps(m) then 1 else 0) + BeepCount(Ticked(m), n - 1)
  }

  function Max0(x: int): nat
  {
    if x < 0 then 0 else x
  }

  /** After n ticks each timer has counted down by n, stopping at zero. */
  lemma {:induction false} TimersCountDown(m: Machine, n: nat)
    ensures TickedN(m, n).delayTimer == Max0(m.delayTimer - n)
    ensures TickedN(m, n).soundTimer == Max0(m.soundTimer - n)
    ensures TickedN(m, n).(delayTimer := m.delayTimer, soundTimer := m.soundTimer) == m
    decreases n
  {
    if n > 0 {
      TimersCountDown(Ticked(m), n - 1);
    }
  }

  /** A sound timer set to s beeps exactly once, on the tick that takes it from 1 to 0. */
  lemma {:induction false} BeepsExactlyOnce(m: Machine, n: nat)
    ensures BeepCount(m, n) == if 1 <= m.soundTimer <= n then 1 else 0
    decreases n
  {
    if n > 0 {
      BeepsExactlyOnce(Ticked(m), n - 1);
    }
  }

  // ---------------------------------------------------------------------
  // Keyboard

  /** `wait_for_key`: block until a key event writes register x. */
  function WaitingOn(m: Machine, x: word): (r: Machine)
    ensures r.state == WaitingForKey(x) && r.(state := m.state) == m
  {
    m.(state := WaitingForKey(x))
  }

  /** `handle_key_event`: latch the key; a pending wait takes the key, pressed or released. */
  function KeyHandled(m: Machine, k: ChipKey, pressed: bool): (r: Outcome)
    requires WellFormed(m)
    ensures r.Stop? <==> m.state.WaitingForKey? && m.state.x >= REGISTERS
    ensures r.Stop? ==> r.fault == RegisterOutOfBounds
    ensures r.Next? ==> WellFormed(r.m) && r.m.state == Executing
    ensures r.Next? ==> r.m.key[k.Index()] == (if pressed then 1 else 0)
    ensures r.Next? ==> forall j :: 0 <= j < KEYS && j != k.Index() ==> r.m.key[j] == m.key[j]
    ensures r.Next? ==> r.m.V == if m.state.WaitingForKey? then m.V[m.state.x := k.Index()] else m.V
    ensures r.Next? ==> r.m.(key := m.key, V := m.V, state := m.state) == m
  {
    var latched := m.(key := m.key[k.Index() := if pressed then 1 else 0]);
    match m.state
    case Executing => Next(latched)
    case WaitingForKey(x) =>
      if x < REGISTERS then Next(latched.(V := latched.V[x := k.Index()], state := Executing))
      else Stop(RegisterOutOfBounds)
  }

  /** Waiting on register x, any key event, press or release, resumes execution with V[x] = key. */
  lemma WaitThenKeyEvent(m: Machine, x: word, k: ChipKey, pressed: bool)
    requires WellFormed(m) && x < REGISTERS
    ensures var r := KeyHandled(WaitingOn(m, x), k, pressed);
      r.Next? && r.m.state == Executing && r.m.V[x] == k.Index() &&
      (forall j :: 0 <= j < REGISTERS && j != x ==> r.m.V[j] == m.V[j])
  {
  }

  // ---------------------------------------------------------------------
  // Display

  /** `clear_display`: every cell 0, and the frame marked dirty. */
  function Cleared(m: Machine): (r: Machine)
    requires WellFormed(m)
    ensures WellFormed(r) && r.drawFlag && BinaryPixels(r.gfx)
    ensures forall k :: 0 <= k < SCREEN_CELLS ==> r.gfx[k] == 0
    ensures r.(gfx := m.gfx, drawFlag := m.drawFlag) == m
  {
    m.(gfx := seq(SCREEN_CELLS, _ => 0), drawFlag := true)
  }

  /** The number of sprite rows that are on screen when drawing from row y0. */
  function DrawnRows(y0: nat, height: nat): nat
  {
    if y0 + height <= SCREEN_HEIGHT then height else Max0(SCREEN_HEIGHT - y0)
  }

  /** Cell k lies in the first `rows` rows of the 8-wide sprite box at (x0, y0). */
  predicate InSprite(k: int, x0: int, y0: int, rows: int)
  {
    y0 <= k / SCREEN_WIDTH < y0 + rows && x0 <= k % SCREEN_WIDTH < x0 + 8
  }

  /** Bit ix of a sprite row, counting from the most significant. */
  function SpriteBit(row: byte, ix: nat): (b: byte)
    requires ix < 8
    ensures b == 0 || b == 1
  {
    row / [128, 64, 32, 16, 8, 4, 2, 1][ix] % 2
  }

  /** A byte is the sum of its eight binary digits, each weighted by its place value. */
  lemma BinaryDigits(row: nat)
    requires row < 0x100
    ensures row == 128 * (row / 128) + 64 * (row / 64 % 2) + 32 * (row / 32 % 2) + 16 * (row / 16 % 2) +
                   8 * (row / 8 % 2) + 4 * (row / 4 % 2) + 2 * (row / 2 % 2) + row % 2
  {
    var q0, q1, q2, q3 := row / 128, row / 64, row / 32, row / 16;
    var q4, q5, q6 := row / 8, row / 4, row / 2;
    assert q1 == 2 * q0 + q1 % 2 by { assert q1 / 2 == q0; }
    assert q2 == 2 * q1 + q2 % 2 by { assert q2 / 2 == q1; }
    assert q3 == 2 * q2 + q3 % 2 by { assert q3 / 2 == q2; }
    assert q4 == 2 * q3 + q4 % 2 by { assert q4 / 2 == q3; }
    assert q5 == 2 * q4 + q5 % 2 by { assert q5 / 2 == q4; }
    assert q6 == 2 * q5 + q6 % 2 by { assert q6 / 2 == q5; }
    assert row == 2 * q6 + row % 2;
  }

  /** The eight sprite bits, most significant first, put back together give the row. */
  lemma SpriteBitsReassemble(row: byte)
    ensures row == 128 * SpriteBit(row, 0) + 64 * SpriteBit(row, 1) + 32 * SpriteBit(row, 2) +
                   16 * SpriteBit(row, 3) + 8 * SpriteBit(row, 4) + 4 * SpriteBit(row, 5) +
                   2 * SpriteBit(row, 6) + SpriteBit(row, 7)
  {
    assert SpriteBit(row, 0) == row / 128 && SpriteBit(row, 1) == row / 64 % 2;
    assert SpriteBit(row, 2) == row / 32 % 2 && SpriteBit(row, 3) == row / 16 % 2;
    assert SpriteBit(row, 4) == row / 8 % 2 && SpriteBit(row, 5) == row / 4 % 2;
    assert SpriteBit(row, 6) == row / 2 % 2 && SpriteBit(row, 7) == row % 2;
    BinaryDigits(row);
  }

  /** `cell ^ bit` for a u8 cell and a bit that is 0 or 1. */
  function XorBit(cell: byte, bit: byte): (r: byte)
    requires bit == 0 || bit == 1
    ensures r / 2 == cell / 2 && (r % 2 == cell % 2 <==> bit == 0)
  {
    if bit == 0 then cell else if cell % 2 == 0 then cell + 1 else cell - 1
  }

  /** Row `row` of the sprite, read from memory[I + row] (0 past the end, where `draw` never reads). */
  function SpriteRow(m: Machine, row: nat): (b: byte)
    requires WellFormed(m)
    ensures m.I + row < MEMORY_SIZE ==> ReadMemByte(m.memory, m.I + row) == Some(b)
  {
    if m.I + row < MEMORY_SIZE then m.memory[m.I + row] else 0
  }

  /** The new value of cell k of the sprite box: old value XOR the sprite's bit. */
  function Painted(m: Machine, x0: nat, y0: nat, k: nat): (c: byte)
    requires WellFormed(m) && k < SCREEN_CELLS && InSprite(k, x0, y0, SCREEN_HEIGHT)
    ensures c != m.gfx[k] <==> SpriteBit(SpriteRow(m, k / SCREEN_WIDTH - y0), k % SCREEN_WIDTH - x0) == 1
    ensures m.gfx[k] <= 1 ==> c <= 1
  {
    XorBit(m.gfx[k], SpriteBit(SpriteRow(m, k / SCREEN_WIDTH - y0), k % SCREEN_WIDTH - x0))
  }

  /** Cell k of the sprite box goes from 1 to 0. */
  predicate Collides(m: Machine, x0: nat, y0: nat, k: nat)
    requires WellFormed(m) && k < SCREEN_CELLS && InSprite(k, x0, y0, SCREEN_HEIGHT)
    ensures Collides(m, x0, y0, k) <==>
      m.gfx[k] == 1 && SpriteBit(SpriteRow(m, k / SCREEN_WIDTH - y0), k % SCREEN_WIDTH - x0) == 1
  {
    m.gfx[k] == 1 && Painted(m, x0, y0, k) == 0
  }

  /** `draw(x, y, height)`: XOR a sprite from memory[I..] onto the screen, clipping at the edges. */
  function Drawn(m: Machine, x: byte, y: byte, height: byte): (r: Outcome)
    requires WellFormed(m)
    ensures r.Stop? <==> DrawnRows(y % SCREEN_HEIGHT, height) > 0 && m.I + DrawnRows(y % SCREEN_HEIGHT, height) > MEMORY_SIZE
    ensures r.Stop? ==> r.fault == MemoryOutOfBounds
    ensures r.Next? ==> WellFormed(r.m) && r.m.drawFlag
    ensures r.Next? ==> r.m.(gfx := m.gfx, V := m.V, drawFlag := m.drawFlag) == m
  {
    var x0, y0 := x % SCREEN_WIDTH, y % SCREEN_HEIGHT;
    var rows := DrawnRows(y0, height);
    if rows > 0 && m.I + rows > MEMORY_SIZE then Stop(MemoryOutOfBounds)
    else
      var gfx := seq(SCREEN_CELLS, k requires 0 <= k < SCREEN_CELLS =>
                       if InSprite(k, x0, y0, height) then Painted(m, x0, y0, k) else m.gfx[k]);
      var collided := exists k | 0 <= k < SCREEN_CELLS :: InSprite(k, x0, y0, height) && Collides(m, x0, y0, k);
      Next(m.(gfx := gfx, V := m.V[VF := if collided then 1 else 0], drawFlag := true))
  }

  /**
   * What a successful draw does: VF is a flag, no other register changes,
   * cells outside the clipped sprite box keep their value, and VF = 1
   * exactly when some cell went from 1 to 0.
   */
  lemma DrawEffect(m: Machine, x: byte, y: byte, height: byte)
    requires WellFormed(m) && Drawn(m, x, y, height).Next?
    ensures var r := Drawn(m, x, y, height).m;
      (r.V[VF] == 0 || r.V[VF] == 1) &&
      (forall j :: 0 <= j < VF ==> r.V[j] == m.V[j]) &&
      (forall k :: 0 <= k < SCREEN_CELLS && !InSprite(k, x % SCREEN_WIDTH, y % SCREEN_HEIGHT, height) ==>
         r.gfx[k] == m.gfx[k]) &&
      (r.V[VF] == 1 <==> exists k :: 0 <= k < SCREEN_CELLS && m.gfx[k] == 1 && r.gfx[k] == 0) &&
      (forall k :: 0 <= k < SCREEN_CELLS && InSprite(k, x % SCREEN_WIDTH, y % SCREEN_HEIGHT, height) ==>
         r.gfx[k] == XorBit(m.gfx[k], SpriteBit(m.memory[m.I + (k / SCREEN_WIDTH - y % SCREEN_HEIGHT)],
                                                k % SCREEN_WIDTH - x % SCREEN_WIDTH)))
  {
  }

  /** Drawing keeps every cell 0 or 1. */
  lemma DrawKeepsPixelsBinary(m: Machine, x: byte, y: byte, height: byte)
    requires WellFormed(m) && BinaryPixels(m.gfx)
    ensures Drawn(m, x, y, height).Next? ==> BinaryPixels(Drawn(m, x, y, height).m.gfx)
  {
  }

  /** On a blank screen nothing collides, and the sprite box shows exactly the sprite's bits. */
  lemma DrawOnBlankScreen(m: Machine, x: byte, y: byte, height: byte)
    requires WellFormed(m) && forall k :: 0 <= k < SCREEN_CELLS ==> m.gfx[k] == 0
    requires DrawnRows(y % SCREEN_HEIGHT, height) > 0 ==> m.I + DrawnRows(y % SCREEN_HEIGHT, height) <= MEMORY_SIZE
    ensures var r := Drawn(m, x, y, height);
      r.Next? && r.m.V[VF] == 0 &&
      forall k :: 0 <= k < SCREEN_CELLS && InSprite(k, x % SCREEN_WIDTH, y % SCREEN_HEIGHT, height) ==>
        r.m.gfx[k] == SpriteBit(m.memory[m.I + (k / SCREEN_WIDTH - y % SCREEN_HEIGHT)], k % SCREEN_WIDTH - x % SCREEN_WIDTH)
  {
  }

  /** Drawing the same sprite twice restores the screen. */
  lemma DrawTwiceRestores(m: Machine, x: byte, y: byte, height: byte)
    requires WellFormed(m) && Drawn(m, x, y, height).Next?
    ensures var m1 := Drawn(m, x, y, height).m;
      Drawn(m1, x, y, height).Next? && Drawn(m1, x, y, height).m.gfx == m.gfx
  {
  }

  // ---------------------------------------------------------------------
  // The interpreter state, updated in place

  class CPU {
    var opcode: word
    const memory: array<byte>
    const V: array<byte>
    var I: word
    var pc: word
    const gfx: array<byte>
    var delayTimer: byte
    var soundTimer: byte
    const stack: array<word>
    var sp: word
    const key: array<byte>
    var drawFlag: bool
    var state: CpuState

    /** The arrays have the sizes of the source's fixed arrays and do not share storage. */
    ghost predicate Valid()
      reads this
    {
      memory.Length == MEMORY_SIZE && V.Length == REGISTERS && gfx.Length == SCREEN_CELLS &&
      stack.Length == STACK_DEPTH && key.Length == KEYS &&
      memory != V && memory != gfx && memory != key && V != gfx && V != key && gfx != key
    }

    /** The current state as a value. */
    ghost function View(): (m: Machine)
      reads this, memory, V, gfx, stack, key
      requires Valid()
      ensures WellFormed(m)
    {
      Machine(opcode, memory[..], V[..], I, pc, gfx[..], delayTimer, soundTimer,
              stack[..], sp, key[..], drawFlag, state)
    }

    /** `CPU::new`. */
    constructor ()
      ensures Valid() && View() == PoweredOn()
    {
      opcode := 0;
      memory := new byte[MEMORY_SIZE](_ => 0);
      V := new byte[REGISTERS](_ => 0);
      I := 0;
      pc := 0;
      gfx := new byte[SCREEN_CELLS](_ => 0);
      delayTimer := 0;
      soundTimer := 0;
      stack := new word[STACK_DEPTH](_ => 0);
      sp := 0;
      key := new byte[KEYS](_ => 0);
      drawFlag := false;
      state := Executing;
      new;
      assert memory[..] == PoweredOn().memory;
      assert V[..] == PoweredOn().V;
      assert gfx[..] == PoweredOn().gfx;
      assert stack[..] == PoweredOn().stack;
      assert key[..] == PoweredOn().key;
    }

    /** `initialize`. */
    method Initialize()
      requires Valid()
      modifies this, memory
      ensures Valid() && View() == Initialized(old(View()))
    {
      pc := PROGRAM_START;
      opcode := 0;
      I := 0;
      sp := 0;
      CopyFont();
      assert memory[..] == Initialized(old(View())).memory;
    }

    /** The font-copy loop of `initialize`. */
    method CopyFont()
      requires Valid()
      modifies memory
      ensures forall a :: 0 <= a < MEMORY_SIZE ==>
        memory[a] == if FONT_START <= a < FONT_START + |FONT_SET| then FONT_SET[a - FONT_START] else old(memory[a])
    {
      var i := 0;
      while i < |FONT_SET|
        invariant 0 <= i <= |FONT_SET|
        invariant forall a :: 0 <= a < MEMORY_SIZE ==>
          memory[a] == if FONT_START <= a < FONT_START + i then FONT_SET[a - FONT_START] else old(memory[a])
      {
        memory[FONT_START + i] := FONT_SET[i];
        i := i + 1;
      }
    }

    /** The copy loop of `load_program` over the bytes of the image. */
    method LoadProgram(bytes: seq<byte>) returns (fault: Option<Fault>)
      requires Valid()
      modifies memory
      ensures Valid() && Agrees(Loaded(old(View()), bytes), fault, View())
    {
      var i := 0;
      while i < |bytes|
        invariant 0 <= i <= |bytes| && PROGRAM_START + i <= MEMORY_SIZE
        invariant forall a :: 0 <= a < MEMORY_SIZE ==>
          memory[a] == if PROGRAM_START <= a < PROGRAM_START + i then bytes[a - PROGRAM_START] else old(memory[a])
      {
        if PROGRAM_START + i >= MEMORY_SIZE {
          return Some(MemoryOutOfBounds);
        }
        memory[PROGRAM_START + i] := bytes[i];
        i := i + 1;
      }
      assert memory[..] == Loaded(old(View()), bytes).m.memory;
      fault := None;
    }

    /** `pc += k`, which overflows a u16. */
    method AdvancePc(k: nat) returns (fault: Option<Fault>)
      requires Valid()
      modifies this
      ensures Valid() && Agrees(Advance(old(View()), k), fault, View())
    {
      if pc + k >= 0x1_0000 {
        return Some(PcOverflow);
      }
      pc := pc + k;
      fault := None;
    }

    /** `update_timers`; the "BEEP!" it prints is returned as `beep`. */
    method UpdateTimers() returns (beep: bool)
      requires Valid()
      modifies this
      ensures Valid() && View() == Ticked(old(View()))
      ensures beep == Beeps(old(View()))
    {
      if delayTimer > 0 {
        delayTimer := delayTimer - 1;
      }
      beep := false;
      if soundTimer > 0 {
        if soundTimer == 1 {
          beep := true;
        }
        soundTimer := soundTimer - 1;
      }
    }

    /** `wait_for_key`. */
    method WaitForKey(outReg: word)
      requires Valid()
      modifies this
      ensures Valid() && View() == WaitingOn(old(View()), outReg)
    {
      state := WaitingForKey(outReg);
    }

    /** `handle_key_event`. */
    method HandleKeyEvent(k: ChipKey, isPressed: bool) returns (fault: Option<Fault>)
      requires Valid()
      modifies this, key, V
      ensures Valid() && Agrees(KeyHandled(old(View()), k, isPressed), fault, View())
    {
      ghost var m := View();
      var index := k.Index();
      var val := if isPressed then 1 else 0;
      key[index] := val;
      assert key[..] == m.key[index := val];
      if state.WaitingForKey? {
        if state.x >= REGISTERS {
          return Some(RegisterOutOfBounds);
        }
        V[state.x] := index;
        assert V[..] == m.V[state.x := index];
        state := Executing;
      }
      fault := None;
    }

    /** `clear_display`. */
    method ClearDisplay()
      requires Valid()
      modifies this, gfx
      ensures Valid() && View() == Cleared(old(View()))
    {
      var k := 0;
      while k < gfx.Length
        modifies gfx
        invariant 0 <= k <= gfx.Length
        invariant forall j :: 0 <= j < k ==> gfx[j] == 0
        invariant forall j :: k <= j < gfx.Length ==> gfx[j] == old(gfx[j])
      {
        gfx[k] := 0;
        k := k + 1;
      }
      drawFlag := true;
      assert gfx[..] == Cleared(old(View())).gfx;
    }

    /** `draw`: row by row, clipped at the bottom edge. */
    method Draw(x: byte, y: byte, height: byte) returns (fault: Option<Fault>)
      requires Valid()
      modifies this, gfx, V
      ensures Valid() && Agrees(Drawn(old(View()), x, y, height), fault, View())
    {
      ghost var m := View();
      var x0, y0 := x % SCREEN_WIDTH, y % SCREEN_HEIGHT;
      var setVf := false;
      var iy := 0;
      while iy < height && y0 + iy < SCREEN_HEIGHT
        modifies gfx
        invariant 0 <= iy <= height && y0 + iy <= SCREEN_HEIGHT && (iy > 0 ==> I + iy <= MEMORY_SIZE)
        invariant PartlyDrawn(gfx[..], m, x0, y0, iy, 0, setVf)
      {
        if I + iy >= MEMORY_SIZE {
          return Some(MemoryOutOfBounds);
        }
        setVf := DrawRow(m, x0, y0, iy, setVf);
        iy := iy + 1;
      }
      V[VF] := if setVf then 1 else 0;
      drawFlag := true;
      assert gfx[..] == Drawn(m, x, y, height).m.gfx;
      fault := None;
    }

    /** One sprite row of `draw`, column by column, clipped at the right edge. */
    method DrawRow(ghost m: Machine, x0: nat, y0: nat, iy: nat, setVf: bool) returns (collided: bool)
      requires Valid() && WellFormed(m) && m.memory == memory[..] && m.I == I
      requires x0 < SCREEN_WIDTH && y0 + iy < SCREEN_HEIGHT && I + iy < MEMORY_SIZE
      requires PartlyDrawn(gfx[..], m, x0, y0, iy, 0, setVf)
      modifies gfx
      ensures PartlyDrawn(gfx[..], m, x0, y0, iy + 1, 0, collided)
    {
      collided := setVf;
      var ix := 0;
      while ix < 8 && x0 + ix < SCREEN_WIDTH
        invariant 0 <= ix <= 8 && x0 + ix <= SCREEN_WIDTH
        invariant PartlyDrawn(gfx[..], m, x0, y0, iy, ix, collided)
      {
        collided := DrawCell(m, x0, y0, iy, ix, collided);
        ix := ix + 1;
      }
      RowDone(gfx[..], m, x0, y0, iy, ix, collided);
    }

    /** One cell of `draw`: XOR in the sprite bit and note a 1-to-0 change. */
    method DrawCell(ghost m: Machine, x0: nat, y0: nat, iy: nat, ix: nat, setVf: bool) returns (collided: bool)
      requires Valid() && WellFormed(m) && m.memory == memory[..] && m.I == I
      requires ix < 8 && x0 + ix < SCREEN_WIDTH && y0 + iy < SCREEN_HEIGHT && I + iy < MEMORY_SIZE
      requires PartlyDrawn(gfx[..], m, x0, y0, iy, ix, setVf)
      modifies gfx
      ensures PartlyDrawn(gfx[..], m, x0, y0, iy, ix + 1, collided)
    {
      var idx := (iy + y0) * SCREEN_WIDTH + ix + x0;
      ghost var before := gfx[..];
      CellStep(before, m, x0, y0, iy, ix, setVf);
      var screenVal := gfx[idx];
      var newVal := XorBit(screenVal, SpriteBit(memory[I + iy], ix));
      collided := setVf;
      if !collided && newVal == 0 && screenVal == 1 {
        collided := true;
      }
      gfx[idx] := newVal;
      assert gfx[..] == before[idx := newVal];
    }
  }

  /** Drawing cell (y0 + iy, x0 + ix) extends the partly drawn screen by one column. */
  lemma CellStep(g: seq<byte>, m: Machine, x0: nat, y0: nat, iy: nat, ix: nat, collided: bool)
    requires WellFormed(m) && |g| == SCREEN_CELLS && ix < 8 && x0 + ix < SCREEN_WIDTH && y0 + iy < SCREEN_HEIGHT
    requires PartlyDrawn(g, m, x0, y0, iy, ix, collided)
    ensures var idx := (iy + y0) * SCREEN_WIDTH + ix + x0;
      idx < SCREEN_CELLS && InSprite(idx, x0, y0, SCREEN_HEIGHT) && g[idx] == m.gfx[idx] &&
      Painted(m, x0, y0, idx) == XorBit(g[idx], SpriteBit(SpriteRow(m, iy), ix)) &&
      PartlyDrawn(g[idx := Painted(m, x0, y0, idx)], m, x0, y0, iy, ix + 1,
                  collided || (g[idx] == 1 && Painted(m, x0, y0, idx) == 0))
  {
    var idx := (iy + y0) * SCREEN_WIDTH + ix + x0;
    CellCoordinates(iy + y0, ix + x0);
    assert !DrawnSoFar(idx, x0, y0, iy, ix);
    forall k | 0 <= k < SCREEN_CELLS
      ensures DrawnSoFar(k, x0, y0, iy, ix + 1) <==> DrawnSoFar(k, x0, y0, iy, ix) || k == idx
    {
    }
  }

  /** Once a row is finished or clipped, the partly drawn screen covers all earlier rows. */
  lemma RowDone(g: seq<byte>, m: Machine, x0: nat, y0: nat, iy: nat, ix: nat, collided: bool)
    requires WellFormed(m) && |g| == SCREEN_CELLS && ix <= 8 && (ix == 8 || x0 + ix >= SCREEN_WIDTH)
    requires PartlyDrawn(g, m, x0, y0, iy, ix, collided)
    ensures PartlyDrawn(g, m, x0, y0, iy + 1, 0, collided)
  {
    forall k | 0 <= k < SCREEN_CELLS
      ensures DrawnSoFar(k, x0, y0, iy + 1, 0) <==> DrawnSoFar(k, x0, y0, iy, ix)
    {
    }
  }

  /** Cell k has been drawn once rows [0, iy) and columns [0, ix) of row iy of the sprite are done. */
  predicate DrawnSoFar(k: int, x0: int, y0: int, iy: int, ix: int)
  {
    InSprite(k, x0, y0, iy) || (k / SCREEN_WIDTH == y0 + iy && x0 <= k % SCREEN_WIDTH < x0 + ix)
  }

  /** The screen `g` and collision flag part-way through drawing a sprite onto m. */
  ghost predicate PartlyDrawn(g: seq<byte>, m: Machine, x0: nat, y0: nat, iy: nat, ix: nat, collided: bool)
    requires WellFormed(m) && |g| == SCREEN_CELLS && ix <= 8
  {
    (forall k :: 0 <= k < SCREEN_CELLS ==>
      g[k] == if DrawnSoFar(k, x0, y0, iy, ix) then Painted(m, x0, y0, k) else m.gfx[k]) &&
    (collided <==> exists k :: 0 <= k < SCREEN_CELLS && DrawnSoFar(k, x0, y0, iy, ix) && Collides(m, x0, y0, k))
  }

  lemma CellCoordinates(r: nat, c: nat)
    requires c < SCREEN_WIDTH
    ensures (r * SCREEN_WIDTH + c) / SCREEN_WIDTH == r && (r * SCREEN_WIDTH + c) % SCREEN_WIDTH == c
  {
  }

  /** Initializing twice is initializing once. */
  lemma InitializeIdempotent(m: Machine)
    requires WellFormed(m)
    ensures Initialized(Initialized(m)) == Initialized(m)
  {
  }
}
