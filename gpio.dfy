/** The GPIO register window of the BCM2711 and the pin controller for
    GPIO 23 built on it.

    Register offsets are those of section 5.2 ("Register View") of the
    "BCM2711 ARM Peripherals" manual, chapter 5 (General Purpose I/O). The
    driver maps one page at the GPIO base and accesses 32-bit words at fixed
    byte offsets in it; a window is modelled as the sequence of the page's
    words, so the word at byte offset `off` is `w[off / 4]`. */
module Gpio {

  const REG_ADDR_BASE: int := 0xFE00_0000
  const REG_ADDR_GPIO_BASE: int := REG_ADDR_BASE + 0x0020_0000
  const PAGE_SIZE: nat := 4096
  /** Number of 32-bit words in the mapped page. */
  const WINDOW_WORDS: nat := PAGE_SIZE / 4

  const GPFSEL2: nat := 0x08
  const GPSET0: nat := 0x1C
  const GPCLR0: nat := 0x28
  const GPLEV0: nat := 0x34

  /** The one pin this driver controls. */
  const PIN: nat := 23
  /** Lowest bit of the 3-bit function-select field of GPIO 23 in GPFSEL2:
      pins 20..29 live in GPFSEL2, three bits each, so (23 - 20) * 3. */
  const FSEL_SHIFT: nat := (PIN - 20) * 3

  /** `1 << 23`: the pin's bit in GPSET0, GPCLR0 and GPLEV0. */
  const PIN_MASK: bv32 := 1 << PIN
  /** `1 << 9`: the low bit of GPIO 23's function-select field. */
  const FSEL_MASK: bv32 := 1 << FSEL_SHIFT

  type Window = w: seq<bv32> | |w| == WINDOW_WORDS
    witness seq(WINDOW_WORDS, _ => 0)

  /** A byte offset that names a whole word inside the mapped page. */
  predicate IsRegister(offset: nat) {
    offset % 4 == 0 && offset < PAGE_SIZE
  }

  /** `r` is `w` with the bits of `mask` set in the word at `offset`: those
      bits are one, every bit outside `mask` in that word keeps its value, and
      every other word is as in `w`. */
  ghost predicate OnlyBitsSet(w: Window, r: Window, offset: nat, mask: bv32)
    requires IsRegister(offset)
  {
    && r[offset / 4] & mask == mask
    && r[offset / 4] & !mask == w[offset / 4] & !mask
    && (forall k :: 0 <= k < WINDOW_WORDS && k != offset / 4 ==> r[k] == w[k])
  }

  /** `REG(base + offset) |= mask`: a read-modify-write of one word. */
  function OrInto(w: Window, offset: nat, mask: bv32): (r: Window)
    requires IsRegister(offset)
    ensures r[offset / 4] == w[offset / 4] | mask
    ensures forall k :: 0 <= k < WINDOW_WORDS && k != offset / 4 ==> r[k] == w[k]
  {
    w[offset / 4 := w[offset / 4] | mask]
  }

  /** An in-place read-modify-write of one word yields `OrInto`. */
  lemma OrIntoOfUpdate(w: Window, x: seq<bv32>, offset: nat, mask: bv32)
    requires IsRegister(offset) && x == w[offset / 4 := w[offset / 4] | mask]
    ensures x == OrInto(w, offset, mask)
  {
  }

  /** The 3-bit function-select field of GPIO 23 inside a GPFSEL2 word. */
  function FselField(x: bv32): bv32 {
    (x >> FSEL_SHIFT) & 7
  }

  /** What open does to the window: OR `1 << 9` into GPFSEL2. */
  function ConfigureOutput(w: Window): (r: Window)
    ensures OnlyBitsSet(w, r, GPFSEL2, FSEL_MASK)
  {
    OrInto(w, GPFSEL2, FSEL_MASK)
  }

  /** Open leaves GPIO 23 in output mode (field 001) exactly when the field
      was 000 (input) or already 001 before: bits 10 and 11 are never
      cleared. */
  lemma ConfigureOutputSelectsOutputIff(w: Window)
    ensures FselField(ConfigureOutput(w)[GPFSEL2 / 4]) == FselField(w[GPFSEL2 / 4]) | 1
    ensures FselField(ConfigureOutput(w)[GPFSEL2 / 4]) == 1 <==> FselField(w[GPFSEL2 / 4]) <= 1
  {
  }

  /** The pin's input level: bit 23 of GPLEV0. */
  function PinHigh(w: Window): (high: bool)
    ensures high <==> (w[GPLEV0 / 4] >> PIN) & 1 == 1
  {
    w[GPLEV0 / 4] & PIN_MASK != 0
  }

  const ASCII_0: bv8 := 0x30
  const ASCII_1: bv8 := 0x31

  /** `REG(base + GPSET0) |= 1 << 23`: drive the pin high. */
  function SetPin(w: Window): (r: Window)
    ensures OnlyBitsSet(w, r, GPSET0, PIN_MASK)
  {
    OrInto(w, GPSET0, PIN_MASK)
  }

  /** `REG(base + GPCLR0) |= 1 << 23`: drive the pin low. */
  function ClearPin(w: Window): (r: Window)
    ensures OnlyBitsSet(w, r, GPCLR0, PIN_MASK)
  {
    OrInto(w, GPCLR0, PIN_MASK)
  }

  /** The switch on the first staged byte of a one-byte write: `'0'` ORs the
      pin's bit into GPCLR0, `'1'` into GPSET0, any other byte does nothing. */
  function Drive(w: Window, b: bv8): (r: Window)
    ensures b == ASCII_0 ==> OnlyBitsSet(w, r, GPCLR0, PIN_MASK)
    ensures b == ASCII_1 ==> OnlyBitsSet(w, r, GPSET0, PIN_MASK)
    ensures b != ASCII_0 && b != ASCII_1 ==> r == w
  {
    if b == ASCII_0 then ClearPin(w)
    else if b == ASCII_1 then SetPin(w)
    else w
  }

  /** Driving the pin never changes the level register or the
      function-select register: SET0 and CLR0 are separate words. */
  lemma DriveKeepsLevelAndFunction(w: Window, b: bv8)
    ensures Drive(w, b)[GPLEV0 / 4] == w[GPLEV0 / 4]
    ensures Drive(w, b)[GPFSEL2 / 4] == w[GPFSEL2 / 4]
  {
  }

  /** The board-level hypothesis under which a read sees the level a write
      drove, which the driver itself does not guarantee: the set and clear
      registers read back as zero before the write (they are write-only), and
      the level read later is high exactly when the write left the pin's bit
      set in GPSET0 and clear in GPCLR0. */
  ghost predicate Loopback(before: Window, after: Window, later: Window) {
    && before[GPSET0 / 4] & PIN_MASK == 0
    && before[GPCLR0 / 4] & PIN_MASK == 0
    && (PinHigh(later) <==> after[GPSET0 / 4] & PIN_MASK != 0 && after[GPCLR0 / 4] & PIN_MASK == 0)
  }
}
