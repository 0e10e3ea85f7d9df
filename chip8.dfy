/**
 * The emulator state of `src/chip8.rs`: a record of registers, memory and
 * buffers, a constructor, a placeholder `clock` that paints a test pattern
 * into video memory, the redraw handshake and a reader for video memory.
 */
module Chip8 {
  import opened Primitives

  const RegisterCount: nat := 16
  const StackDepth: nat := 16
  const RamSize: nat := 4096
  const ScreenWidth: nat := 64
  const ScreenHeight: nat := 32
  const VramSize: nat := ScreenHeight * ScreenWidth
  const KeyCount: nat := 16
  /** Programs are loaded at, and start running from, address 0x200. */
  const ProgramStart: u16 := 0x200

  /** A value snapshot of every field of the emulator. */
  datatype Machine = Machine(
    opcode: u16,
    v: seq<u8>,
    i: u16,
    pc: u16,
    stack: seq<u16>,
    sp: u16,
    ram: seq<u8>,
    vram: seq<u8>,
    redraw: bool,
    keys: seq<u8>,
    delayT: u8,
    soundT: u8)

  /** Every buffer has the size the constructor gives it. */
  predicate WellFormed(m: Machine) {
    |m.v| == RegisterCount && |m.stack| == StackDepth && |m.ram| == RamSize &&
    |m.vram| == VramSize && |m.keys| == KeyCount
  }

  /** The state right after construction. */
  function Initial(): Machine {
    Machine(0, seq(RegisterCount, _ => 0), 0, ProgramStart, seq(StackDepth, _ => 0), 0,
            seq(RamSize, _ => 0), seq(VramSize, _ => 0), false, seq(KeyCount, _ => 0), 0, 0)
  }

  /** Video memory after one placeholder clock: every third cell, from cell 0, is lit. */
  function ClockedVram(vram: seq<u8>): (r: seq<u8>)
    ensures |r| == |vram|
    ensures forall k :: 0 <= k < |r| && k % 3 == 0 ==> r[k] == 1
    ensures forall k :: 0 <= k < |r| && k % 3 != 0 ==> r[k] == vram[k]
  {
    seq(|vram|, k requires 0 <= k < |vram| => if k % 3 == 0 then 1 else vram[k])
  }

  /** The whole effect of one clock on the state. */
  function ClockStep(m: Machine): Machine {
    m.(vram := ClockedVram(m.vram), redraw := true)
  }

  /** The whole effect of acknowledging a redraw on the state. */
  function FulfillStep(m: Machine): Machine {
    m.(redraw := false)
  }

  lemma InitialIsZeroed()
    ensures WellFormed(Initial())
    ensures Initial().pc == 0x200 && Initial().opcode == 0 && Initial().i == 0 && Initial().sp == 0
    ensures forall r :: 0 <= r < RegisterCount ==> Initial().v[r] == 0
    ensures forall a :: 0 <= a < RamSize ==> Initial().ram[a] == 0
    ensures forall c :: 0 <= c < VramSize ==> Initial().vram[c] == 0
    ensures forall k :: 0 <= k < KeyCount ==> Initial().keys[k] == 0
    ensures Initial().delayT == 0 && Initial().soundT == 0 && !Initial().redraw
  {
  }

  /** A clock raises the redraw flag, lights every third cell and keeps every other field. */
  lemma ClockStepEffect(m: Machine)
    ensures var n := ClockStep(m);
      n.redraw && |n.vram| == |m.vram| &&
      (forall k :: 0 <= k < |m.vram| ==> n.vram[k] == if k % 3 == 0 then 1 else m.vram[k]) &&
      n.(vram := m.vram, redraw := m.redraw) == m
  {
  }

  /** Clocking twice leaves the same state as clocking once. */
  lemma ClockStepIdempotent(m: Machine)
    ensures ClockStep(ClockStep(m)) == ClockStep(m)
  {
    assert ClockedVram(ClockedVram(m.vram)) == ClockedVram(m.vram);
  }

  /** Neither step changes the size of any buffer. */
  lemma StepsPreserveWellFormed(m: Machine)
    requires WellFormed(m)
    ensures WellFormed(ClockStep(m)) && WellFormed(FulfillStep(m))
  {
  }

  /** The handshake: after a clock a redraw is pending; acknowledging it clears only the flag. */
  lemma RedrawHandshake(m: Machine)
    ensures ClockStep(m).redraw
    ensures !FulfillStep(ClockStep(m)).redraw
    ensures FulfillStep(ClockStep(m)).vram == ClockedVram(m.vram)
    ensures FulfillStep(ClockStep(m)).(redraw := m.redraw, vram := m.vram) == m
  {
  }

  class Chip8 {
    var opcode: u16
    var v: array<u8>
    var i: u16
    var pc: u16
    var stack: array<u16>
    var sp: u16
    var ram: array<u8>
    var vram: array<u8>
    var redraw: bool
    var keys: array<u8>
    var delayT: u8
    var soundT: u8

    /** Buffers keep their sizes, and no two byte buffers are the same vector. */
    ghost predicate Valid()
      reads this
    {
      v.Length == RegisterCount && stack.Length == StackDepth && ram.Length == RamSize &&
      vram.Length == VramSize && keys.Length == KeyCount &&
      v != ram && v != vram && v != keys && ram != vram && ram != keys && vram != keys
    }

    /** The current value of every field. */
    ghost function State(): Machine
      reads this, v, stack, ram, vram, keys
    {
      Machine(opcode, v[..], i, pc, stack[..], sp, ram[..], vram[..], redraw, keys[..], delayT, soundT)
    }

    constructor ()
      ensures Valid() && State() == Initial()
      ensures fresh(v) && fresh(stack) && fresh(ram) && fresh(vram) && fresh(keys)
    {
      opcode := 0;
      v := new u8[RegisterCount](_ => 0);
      i := 0;
      pc := ProgramStart;
      stack := new u16[StackDepth](_ => 0);
      sp := 0;
      ram := new u8[RamSize](_ => 0);
      vram := new u8[VramSize](_ => 0);
      redraw := false;
      keys := new u8[KeyCount](_ => 0);
      delayT := 0;
      soundT := 0;
      new;
      assert v[..] == Initial().v;
      assert stack[..] == Initial().stack;
      assert ram[..] == Initial().ram;
      assert vram[..] == Initial().vram;
      assert keys[..] == Initial().keys;
    }

    /** Placeholder cycle: lights every third video cell and requests a redraw. */
    method Clock()
      requires Valid()
      modifies this`redraw, vram
      ensures Valid()
      ensures State() == ClockStep(old(State()))
      ensures redraw
      ensures forall k :: 0 <= k < vram.Length ==> vram[k] == if k % 3 == 0 then 1 else old(vram[k])
    {
      var k := 0;
      while k < vram.Length
        invariant 0 <= k <= vram.Length
        invariant forall j :: 0 <= j < k ==> vram[j] == if j % 3 == 0 then 1 else old(vram[j])
        invariant forall j :: k <= j < vram.Length ==> vram[j] == old(vram[j])
      {
        if k % 3 == 0 {
          vram[k] := 1;
        }
        k := k + 1;
      }
      redraw := true;
      assert vram[..] == ClockedVram(old(vram[..]));
    }

    /** The current contents of video memory, read without changing anything. */
    method DumpVram() returns (r: seq<u8>)
      requires Valid()
      ensures |r| == VramSize
      ensures r == vram[..]
    {
      r := vram[..];
    }

    /** Whether a redraw is pending, read without changing anything. */
    method IsAwaitingRedraw() returns (b: bool)
      ensures b == redraw
    {
      b := redraw;
    }

    /** Acknowledges a pending redraw; clears the flag and nothing else. */
    method FulfillRedraw()
      requires Valid()
      modifies this`redraw
      ensures Valid()
      ensures State() == FulfillStep(old(State()))
      ensures !redraw
    {
      redraw := false;
    }
  }
}
