/** The GPIO 23 LED character device: its file operations (open, release,
    read, write, ioctl), the module-wide state they share, and module load
    and unload.

    Every call into the kernel whose outcome the driver only tests is an
    input: whether kmalloc returns memory, whether a user copy faults, and
    whether each registration step succeeds. What a faulting copy leaves in
    kernel memory is an input too (`residue`), so nothing is promised about
    it. Each entry point is given first as a function over values (`...Step`)
    and then as a method of `Driver` that updates the state in place and is
    proved to agree with it. */
module LedDriver {
  import opened Wrappers
  import opened Gpio
  import opened LedIoctl
  import opened Lifecycle

  /** Size of a session's staging buffer (`struct file_data`). */
  const NUM_BUFFER: nat := 256

  const ENOMEM: int := 12
  const EFAULT: int := 14

  /** A read or write length limited to the staging buffer. */
  function Clamp(count: nat): (n: nat)
    ensures n <= NUM_BUFFER
    ensures count <= NUM_BUFFER ==> n == count
    ensures count > NUM_BUFFER ==> n == NUM_BUFFER
  {
    if count > NUM_BUFFER then NUM_BUFFER else count
  }

  /** `val + '0'` for the level bit `val`. */
  function LevelDigit(high: bool): bv8 {
    if high then ASCII_1 else ASCII_0
  }

  /** Read's update of the staging buffer: the level digit, then NUL. */
  function FillLevel(buf: seq<bv8>, high: bool): (r: seq<bv8>)
    requires |buf| == NUM_BUFFER
    ensures |r| == NUM_BUFFER
    ensures r[0] == ASCII_1 <==> high
    ensures r[0] == ASCII_0 <==> !high
    ensures r[1] == 0
    ensures r[2..] == buf[2..]
  {
    buf[0 := LevelDigit(high)][1 := 0]
  }

  datatype ReadResult = ReadResult(ret: int, buffer: seq<bv8>, reply: seq<bv8>, mappings: nat)

  /** `bcm23_led_read` on a window `w`, a staging buffer, a requested
      length, whether `copy_to_user` succeeds, and the number of register
      mappings outstanding; the mapping is released on both exits. */
  function ReadStep(w: Window, buf: seq<bv8>, count: nat, copyOk: bool, mappings: nat): (r: ReadResult)
    requires |buf| == NUM_BUFFER
    ensures r.buffer == FillLevel(buf, PinHigh(w))
    ensures copyOk ==> r.ret == |r.reply| == Clamp(count)
    ensures copyOk && count >= 1 ==> (r.reply[0] == ASCII_1 <==> PinHigh(w))
    ensures copyOk && count >= 1 ==> (r.reply[0] == ASCII_0 <==> !PinHigh(w))
    ensures copyOk && count >= 2 ==> r.reply[1] == 0
    ensures copyOk ==> forall i :: 2 <= i < |r.reply| ==> r.reply[i] == buf[i]
    ensures !copyOk ==> r.ret == -EFAULT
    ensures r.mappings == mappings
  {
    var n := Clamp(count);
    var b := FillLevel(buf, PinHigh(w));
    if copyOk then ReadResult(n, b, b[..n], mappings)
    else ReadResult(-EFAULT, b, [], mappings)
  }

  /** `bcm23_led_read` as written: the `-EFAULT` return skips `iounmap`. */
  function ReadStepAsWritten(w: Window, buf: seq<bv8>, count: nat, copyOk: bool, mappings: nat): (r: ReadResult)
    requires |buf| == NUM_BUFFER
    ensures r.buffer == FillLevel(buf, PinHigh(w))
    ensures copyOk ==> r.ret == Clamp(count) && r.mappings == mappings
    ensures !copyOk ==> r.ret == -EFAULT && r.mappings == mappings + 1
  {
    var mapped := mappings + 1;
    var n := Clamp(count);
    var b := FillLevel(buf, PinHigh(w));
    if !copyOk then ReadResult(-EFAULT, b, [], mapped)
    else ReadResult(n, b, b[..n], mapped - 1)
  }

  /** As written, every faulting read leaves one register mapping behind;
      the model's read leaves none. */
  lemma ReadFaultLeaksMapping(w: Window, buf: seq<bv8>, count: nat, mappings: nat)
    requires |buf| == NUM_BUFFER
    ensures ReadStepAsWritten(w, buf, count, false, mappings).mappings == mappings + 1
    ensures ReadStep(w, buf, count, false, mappings).mappings == mappings
    ensures ReadStepAsWritten(w, buf, count, true, mappings) == ReadStep(w, buf, count, true, mappings)
  {
  }

  /** `copy_from_user(p->buffer, src, |src|)` for a copy that fits. */
  function CopyIn(buf: seq<bv8>, src: seq<bv8>): (r: seq<bv8>)
    requires |buf| == NUM_BUFFER && |src| <= NUM_BUFFER
    ensures |r| == NUM_BUFFER
    ensures |r| >= NUM_BUFFER && |r| >= |src| && r[..|src|] == src
    ensures r[|src|..] == buf[|src|..]
  {
    src + buf[|src|..]
  }

  /** The bytes `copy_from_user(p->buffer, src, count)` writes from the
      start of the 256-byte buffer, as written: `count` is not limited. */
  function CopyInAsWritten(buf: seq<bv8>, src: seq<bv8>): (r: seq<bv8>)
    requires |buf| == NUM_BUFFER
    ensures |r| >= NUM_BUFFER && |r| >= |src| && r[..|src|] == src
    ensures |src| <= NUM_BUFFER ==> r == CopyIn(buf, src)
    ensures |src| > NUM_BUFFER ==> |r| > NUM_BUFFER
  {
    if |src| <= NUM_BUFFER then src + buf[|src|..] else src
  }

  /** `p->buffer[0] = val + '0'; p->buffer[1] = '\0';` */
  method StoreLevel(p: array<bv8>, high: bool)
    requires p.Length == NUM_BUFFER
    modifies p
    ensures p[..] == FillLevel(old(p[..]), high)
  {
    p[0] := LevelDigit(high);
    p[1] := 0;
  }

  /** `copy_from_user(p->buffer, src, |src|)` for a copy that succeeds,
      byte by byte. */
  method CopyFromUser(p: array<bv8>, src: seq<bv8>)
    requires p.Length == NUM_BUFFER && |src| <= NUM_BUFFER
    modifies p
    ensures p[..] == CopyIn(old(p[..]), src)
  {
    for i := 0 to |src|
      invariant p[..i] == src[..i]
      invariant p[i..] == old(p[..])[i..]
    {
      p[i] := src[i];
    }
  }

  datatype WriteResult = WriteResult(ret: int, buffer: seq<bv8>, regs: Window)

  /** `bcm23_led_write` with the length limited to the buffer: stage the
      bytes; a write of exactly one byte then drives the pin by that byte. */
  function WriteStep(w: Window, buf: seq<bv8>, data: seq<bv8>, copyOk: bool, residue: seq<bv8>): (r: WriteResult)
    requires |buf| == NUM_BUFFER && |residue| == NUM_BUFFER
    ensures !copyOk ==> r.ret == -EFAULT && r.regs == w && r.buffer == residue
    ensures copyOk ==> r.ret == Clamp(|data|) && r.buffer == CopyIn(buf, data[..Clamp(|data|)])
    ensures copyOk ==> r.regs == if |data| == 1 then Drive(w, data[0]) else w
  {
    if !copyOk then WriteResult(-EFAULT, residue, w)
    else
      var n := Clamp(|data|);
      var b := CopyIn(buf, data[..n]);
      if n != 1 then WriteResult(n, b, w)
      else WriteResult(n, b, Drive(w, b[0]))
  }

  /** `bcm23_led_write` as written: the whole request is copied into the
      buffer, whatever its length, and that length is returned. */
  function WriteStepAsWritten(w: Window, buf: seq<bv8>, data: seq<bv8>, copyOk: bool, residue: seq<bv8>): (r: WriteResult)
    requires |buf| == NUM_BUFFER && |residue| == NUM_BUFFER
    ensures !copyOk ==> r.ret == -EFAULT && r.regs == w
    ensures copyOk ==> r.ret == |data| && |r.buffer| >= |data| && r.buffer[..|data|] == data
  {
    if !copyOk then WriteResult(-EFAULT, residue, w)
    else
      var b := CopyInAsWritten(buf, data);
      if |data| != 1 then WriteResult(|data|, b, w)
      else WriteResult(|data|, b, Drive(w, b[0]))
  }

  /** As written, a write longer than the buffer stores every byte, past the
      end of the 256-byte buffer, and returns the full length; the limited
      write stores 256 bytes and returns 256. Up to 256 bytes the two agree. */
  lemma WriteOverrunsBuffer(w: Window, buf: seq<bv8>, data: seq<bv8>, residue: seq<bv8>)
    requires |buf| == NUM_BUFFER && |residue| == NUM_BUFFER
    ensures var aw := WriteStepAsWritten(w, buf, data, true, residue);
            |data| > NUM_BUFFER ==> aw.ret == |data| && |aw.buffer| > NUM_BUFFER
    ensures |data| > NUM_BUFFER ==> WriteStep(w, buf, data, true, residue).ret == NUM_BUFFER
    ensures |data| <= NUM_BUFFER ==> WriteStepAsWritten(w, buf, data, true, residue) == WriteStep(w, buf, data, true, residue)
  {
    if |data| <= NUM_BUFFER {
      assert data[..Clamp(|data|)] == data;
    }
  }

  /** A successful write stages the caller's bytes, as many as fit, at the
      start of the buffer and leaves the rest of it alone. */
  lemma WriteStagesData(w: Window, buf: seq<bv8>, data: seq<bv8>, residue: seq<bv8>)
    requires |buf| == NUM_BUFFER && |residue| == NUM_BUFFER
    ensures var r := WriteStep(w, buf, data, true, residue);
            && (r.ret == |data| <= NUM_BUFFER || r.ret == NUM_BUFFER < |data|)
            && r.buffer[..r.ret] == data[..r.ret] && r.buffer[r.ret..] == buf[r.ret..]
  {
  }

  /** A successful write of the single byte `'0'` sets the pin's bit of
      GPCLR0 and nothing else: the pin is driven low. */
  lemma WriteZeroClearsPin(w: Window, buf: seq<bv8>, residue: seq<bv8>)
    requires |buf| == NUM_BUFFER && |residue| == NUM_BUFFER
    ensures OnlyBitsSet(w, WriteStep(w, buf, [ASCII_0], true, residue).regs, GPCLR0, PIN_MASK)
  {
    assert WriteStep(w, buf, [ASCII_0], true, residue).regs == Drive(w, ASCII_0);
  }

  /** A successful write of the single byte `'1'` sets the pin's bit of
      GPSET0 and nothing else: the pin is driven high. */
  lemma WriteOneSetsPin(w: Window, buf: seq<bv8>, residue: seq<bv8>)
    requires |buf| == NUM_BUFFER && |residue| == NUM_BUFFER
    ensures OnlyBitsSet(w, WriteStep(w, buf, [ASCII_1], true, residue).regs, GPSET0, PIN_MASK)
  {
    assert WriteStep(w, buf, [ASCII_1], true, residue).regs == Drive(w, ASCII_1);
  }

  /** Any other write, of whatever length, leaves every register as it was. */
  lemma WriteOtherKeepsRegisters(w: Window, buf: seq<bv8>, data: seq<bv8>, residue: seq<bv8>)
    requires |buf| == NUM_BUFFER && |residue| == NUM_BUFFER
    requires data != [ASCII_0] && data != [ASCII_1]
    ensures WriteStep(w, buf, data, true, residue).regs == w
  {
    if |data| == 1 {
      assert data == [data[0]];
    }
  }

  datatype IoctlResult = IoctlResult(ret: int, stored: LedValues, reply: Option<LedValues>)

  /** `bcm23_led_ioctl` on the stored record: `arg` is the caller's record,
      `residue` what a faulting copy leaves in `stored_values`. */
  function IoctlStep(stored: LedValues, cmd: bv32, arg: LedValues, copyOk: bool, residue: LedValues): (r: IoctlResult)
    ensures r.ret == 0 <==> copyOk && (cmd == DEVICE_SET_VALUES || cmd == DEVICE_GET_VALUES)
    ensures r.ret != 0 ==> r.ret == -EFAULT && r.reply == None
    ensures cmd != DEVICE_SET_VALUES ==> r.stored == stored
    ensures cmd == DEVICE_SET_VALUES && copyOk ==> r.stored == arg && r.reply == None
    ensures cmd == DEVICE_GET_VALUES && copyOk ==> r.reply == Some(stored)
  {
    if cmd == DEVICE_SET_VALUES then
      if copyOk then IoctlResult(0, arg, None) else IoctlResult(-EFAULT, residue, None)
    else if cmd == DEVICE_GET_VALUES then
      if copyOk then IoctlResult(0, stored, Some(stored)) else IoctlResult(-EFAULT, stored, None)
    else
      IoctlResult(-EFAULT, stored, None)
  }

  /** One ioctl request, from whichever handle. */
  datatype IoctlCall = IoctlCall(cmd: bv32, arg: LedValues, copyOk: bool, residue: LedValues)

  /** `stored_values` after a sequence of requests. */
  function StoredAfter(stored: LedValues, calls: seq<IoctlCall>): LedValues
    decreases |calls|
  {
    if calls == [] then stored
    else
      var c := calls[|calls| - 1];
      IoctlStep(StoredAfter(stored, calls[..|calls| - 1]), c.cmd, c.arg, c.copyOk, c.residue).stored
  }

  /** The record of the most recent set request, or `initial` if none. */
  function LastSet(calls: seq<IoctlCall>, initial: LedValues): LedValues
    decreases |calls|
  {
    if calls == [] then initial
    else if calls[|calls| - 1].cmd == DEVICE_SET_VALUES then calls[|calls| - 1].arg
    else LastSet(calls[..|calls| - 1], initial)
  }

  /** Whenever no set request faults, the stored record is the last one set. */
  lemma {:induction false} StoredIsLastSet(stored: LedValues, calls: seq<IoctlCall>)
    requires forall i :: 0 <= i < |calls| && calls[i].cmd == DEVICE_SET_VALUES ==> calls[i].copyOk
    ensures StoredAfter(stored, calls) == LastSet(calls, stored)
    decreases |calls|
  {
    if calls != [] {
      StoredIsLastSet(stored, calls[..|calls| - 1]);
    }
  }

  /** A get request, from any handle, returns the record of the last set
      request since load, or {0, 0} if there was none. */
  lemma GetReturnsLastSet(calls: seq<IoctlCall>, arg: LedValues, residue: LedValues)
    requires forall i :: 0 <= i < |calls| && calls[i].cmd == DEVICE_SET_VALUES ==> calls[i].copyOk
    ensures IoctlStep(StoredAfter(ZERO_VALUES, calls), DEVICE_GET_VALUES, arg, true, residue).reply
              == Some(LastSet(calls, ZERO_VALUES))
  {
    StoredIsLastSet(ZERO_VALUES, calls);
    RequestCodes();
  }

  /** The smoke test's scenario: a one-byte write of `'0'` or `'1'` followed
      by a one-byte read returns that byte, provided the level register the
      read sees follows the set and clear registers the write left
      (`Loopback`). That loopback is a property of the board, not of the
      driver. */
  lemma WriteThenReadUnderLoopback(w: Window, buf: seq<bv8>, b: bv8, residue: seq<bv8>, later: Window)
    requires b == ASCII_0 || b == ASCII_1
    requires |buf| == NUM_BUFFER && |residue| == NUM_BUFFER
    requires Loopback(w, WriteStep(w, buf, [b], true, residue).regs, later)
    ensures var wr := WriteStep(w, buf, [b], true, residue);
            var rd := ReadStep(later, wr.buffer, 1, true, 0);
            wr.ret == 1 && rd.ret == 1 && rd.reply == [b]
  {
    if b == ASCII_0 {
      WriteZeroClearsPin(w, buf, residue);
    } else {
      WriteOneSetsPin(w, buf, residue);
    }
  }

  /** `struct file` as far as the driver uses it: `private_data`, which
      holds the session's staging buffer or null. */
  class OpenFile {
    var privateData: array?<bv8>

    constructor ()
      ensures privateData == null
    {
      privateData := null;
    }
  }

  /** The loaded module: its static state and the GPIO block it drives. */
  class Driver {
    /** The GPIO register page at REG_ADDR_GPIO_BASE, one element per word. */
    const regs: array<bv32>
    /** `stored_values` */
    var storedValues: LedValues
    /** `led23_major` */
    var major: nat
    /** Registrations held, oldest first (region, cdev, class, nodes). */
    var held: seq<Resource>
    /** Every registration and unregistration made, in order. */
    var log: seq<Event>
    /** Register mappings obtained by `ioremap_cache` and not yet unmapped. */
    var mappings: nat
    /** Session buffers allocated by open and not yet freed. */
    var sessions: set<array<bv8>>

    ghost predicate Valid() {
      regs.Length == WINDOW_WORDS
    }

    /** Module load before `bcm23_led_init` runs: static state is zero. */
    constructor (hw: array<bv32>)
      requires hw.Length == WINDOW_WORDS
      ensures Valid() && regs == hw
      ensures storedValues == ZERO_VALUES && major == 0
      ensures held == [] && log == [] && mappings == 0 && sessions == {}
    {
      regs := hw;
      storedValues := ZERO_VALUES;
      major := 0;
      held := [];
      log := [];
      mappings := 0;
      sessions := {};
    }

    method MapWindow()
      modifies this`mappings
      ensures mappings == old(mappings) + 1
    {
      mappings := mappings + 1;
    }

    method UnmapWindow()
      requires mappings > 0
      modifies this`mappings
      ensures mappings == old(mappings) - 1
    {
      mappings := mappings - 1;
    }

    /** `REG(address + offset) |= mask` on the mapped page. */
    method OrRegister(offset: nat, mask: bv32)
      requires Valid() && IsRegister(offset)
      modifies regs
      ensures regs[..] == OrInto(old(regs[..]), offset, mask)
    {
      ghost var w: Window := regs[..];
      regs[offset / 4] := regs[offset / 4] | mask;
      OrIntoOfUpdate(w, regs[..], offset, mask);
    }

    /** `bcm23_led_open` */
    method Open(file: OpenFile, allocOk: bool) returns (ret: int)
      requires Valid()
      modifies file, regs, this`sessions, this`mappings
      ensures !allocOk ==> ret == -ENOMEM && file.privateData == old(file.privateData)
      ensures !allocOk ==> regs[..] == old(regs[..]) && sessions == old(sessions)
      ensures allocOk ==> ret == 0 && file.privateData != null && fresh(file.privateData)
      ensures allocOk ==> file.privateData.Length == NUM_BUFFER
      ensures allocOk ==> sessions == old(sessions) + {file.privateData}
      ensures allocOk ==> regs[..] == ConfigureOutput(old(regs[..]))
      ensures mappings == old(mappings)
    {
      if !allocOk {
        return -ENOMEM;
      }
      var p := new bv8[NUM_BUFFER];
      file.privateData := p;
      sessions := sessions + {p};
      MapWindow();
      OrRegister(GPFSEL2, FSEL_MASK);
      UnmapWindow();
      ret := 0;
    }

    /** `bcm23_led_release`: frees the session once; on a handle without
        one it changes nothing, so releasing twice is harmless. */
    method Release(file: OpenFile) returns (ret: int)
      modifies file, this`sessions
      ensures ret == 0 && file.privateData == null
      ensures old(file.privateData) == null ==> sessions == old(sessions)
      ensures old(file.privateData) != null ==> sessions == old(sessions) - {old(file.privateData)}
    {
      if file.privateData == null {
        return 0;
      }
      sessions := sessions - {file.privateData};
      file.privateData := null;
      return 0;
    }

    /** `bcm23_led_read`, with the mapping released on the fault path too. */
    method Read(file: OpenFile, count: nat, copyOk: bool) returns (ret: int, reply: seq<bv8>)
      requires Valid()
      requires file.privateData != null && file.privateData.Length == NUM_BUFFER
      modifies file.privateData, this`mappings
      ensures var r := ReadStep(regs[..], old(file.privateData[..]), count, copyOk, old(mappings));
              ret == r.ret && reply == r.reply && file.privateData[..] == r.buffer && mappings == r.mappings
      ensures regs[..] == old(regs[..])
    {
      var n := Clamp(count);
      MapWindow();
      var high := regs[GPLEV0 / 4] & PIN_MASK != 0;
      assert high == PinHigh(regs[..]);
      var p := file.privateData;
      StoreLevel(p, high);
      if !copyOk {
        UnmapWindow();
        return -EFAULT, [];
      }
      reply := p[..n];
      UnmapWindow();
      ret := n;
    }

    /** `bcm23_led_write`, with the copy limited to the buffer. */
    method Write(file: OpenFile, data: seq<bv8>, copyOk: bool, residue: seq<bv8>) returns (ret: int)
      requires Valid()
      requires file.privateData != null && file.privateData.Length == NUM_BUFFER
      requires |residue| == NUM_BUFFER
      modifies file.privateData, regs, this`mappings
      ensures var r := WriteStep(old(regs[..]), old(file.privateData[..]), data, copyOk, residue);
              ret == r.ret && file.privateData[..] == r.buffer && regs[..] == r.regs
      ensures mappings == old(mappings)
    {
      var p := file.privateData;
      if !copyOk {
        forall i | 0 <= i < NUM_BUFFER {
          p[i] := residue[i];
        }
        return -EFAULT;
      }
      var count := Clamp(|data|);
      CopyFromUser(p, data[..count]);
      if count != 1 {
        return count;
      }
      MapWindow();
      DriveRegisters(p[0]);
      UnmapWindow();
      ret := count;
    }

    /** The switch in write: OR the pin's bit into GPCLR0 for `'0'`, into
        GPSET0 for `'1'`. */
    method DriveRegisters(b: bv8)
      requires Valid()
      modifies regs
      ensures regs[..] == Drive(old(regs[..]), b)
    {
      if b == ASCII_0 {
        OrRegister(GPCLR0, PIN_MASK);
      } else if b == ASCII_1 {
        OrRegister(GPSET0, PIN_MASK);
      }
    }

    /** `bcm23_led_ioctl`; the handle plays no part. */
    method Ioctl(file: OpenFile, cmd: bv32, arg: LedValues, copyOk: bool, residue: LedValues)
      returns (ret: int, reply: Option<LedValues>)
      modifies this`storedValues
      ensures var r := IoctlStep(old(storedValues), cmd, arg, copyOk, residue);
              ret == r.ret && reply == r.reply && storedValues == r.stored
    {
      reply := None;
      if cmd == DEVICE_SET_VALUES {
        if !copyOk {
          storedValues := residue;
          return -EFAULT, None;
        }
        storedValues := arg;
      } else if cmd == DEVICE_GET_VALUES {
        if !copyOk {
          return -EFAULT, None;
        }
        reply := Some(storedValues);
      } else {
        return -EFAULT, None;
      }
      ret := 0;
    }

    /** A registration call that succeeded. */
    method Register(x: Resource)
      modifies this`held, this`log
      ensures held == old(held) + [x] && log == old(log) + [Acquired(x)]
    {
      held := held + [x];
      log := log + [Acquired(x)];
    }

    /** An unregistration call; it always gives back the latest holding. */
    method Unregister(x: Resource)
      requires held != [] && held[|held| - 1] == x
      modifies this`held, this`log
      ensures held == old(held)[..|old(held)| - 1] && log == old(log) + [Released(x)]
    {
      held := held[..|held| - 1];
      log := log + [Released(x)];
    }

    /** Give back everything held, most recent first. */
    method RollBack()
      modifies this`held, this`log
      ensures held == [] && log == old(log) + Unwind(old(held))
    {
      while held != []
        invariant held == old(held)[..|held|]
        invariant log == old(log) + Unwind(old(held))[..|old(held)| - |held|]
        decreases |held|
      {
        ghost var j := |old(held)| - |held|;
        assert Unwind(old(held))[j] == Released(held[|held| - 1]);
        assert Unwind(old(held))[..j + 1] == Unwind(old(held))[..j] + [Unwind(old(held))[j]];
        Unregister(held[|held| - 1]);
      }
      assert Unwind(old(held))[..|old(held)|] == Unwind(old(held));
    }

    /** `bcm23_led_init`; a failing `device_create` is rolled back like the
        other steps. */
    method Init(major: nat, oks: seq<bool>) returns (ret: int)
      requires |oks| == |Plan(major)|
      requires held == []
      modifies this`major, this`held, this`log
      ensures var r := Load(major, oks);
              ret == r.ret && held == r.held && log == old(log) + r.log
      ensures ret == 0 ==> this.major == major
    {
      var p := Plan(major);
      if !oks[0] {
        LoadFailsAt(major, oks, 0);
        return -1;
      }
      this.major := major;
      AcquisitionsAppend([], Region(major));
      Register(Region(major));
      if !oks[1] {
        Unregister(Region(major));
        assert p[..1] == [Region(major)];
        LoadFailsAt(major, oks, 1);
        return -1;
      }
      AcquisitionsAppend(held, CharDev(major));
      Register(CharDev(major));
      if !oks[2] {
        Unregister(CharDev(major));
        Unregister(Region(major));
        assert p[..2] == [Region(major), CharDev(major)];
        assert Unwind(p[..2]) == [Released(CharDev(major)), Released(Region(major))];
        LoadFailsAt(major, oks, 2);
        return -1;
      }
      AcquisitionsAppend(held, DeviceClass);
      Register(DeviceClass);
      ret := CreateNodes(major, oks, old(log));
    }

    /** The minor loop of `bcm23_led_init`, once region, cdev and class are
        registered: one node per minor; a failing node gives back everything
        registered so far. */
    method CreateNodes(major: nat, oks: seq<bool>, ghost base: seq<Event>) returns (ret: int)
      requires |oks| == |Plan(major)|
      requires held == Plan(major)[..3] && log == base + Acquisitions(held)
      requires oks[0] && oks[1] && oks[2]
      modifies this`held, this`log
      ensures var r := Load(major, oks);
              ret == r.ret && held == r.held && log == base + r.log
    {
      ghost var p := Plan(major);
      var minor := MINOR_BASE;
      while minor < MINOR_BASE + MINOR_NUM
        invariant MINOR_BASE <= minor <= MINOR_BASE + MINOR_NUM
        invariant held == p[..3 + (minor - MINOR_BASE)]
        invariant log == base + Acquisitions(held)
        invariant forall i :: 0 <= i < |held| ==> oks[i]
      {
        if !oks[3 + (minor - MINOR_BASE)] {
          RollBack();
          LoadFailsAt(major, oks, 3 + (minor - MINOR_BASE));
          return -1;
        }
        AcquisitionsAppend(held, DeviceNode(major, minor));
        Register(DeviceNode(major, minor));
        minor := minor + 1;
      }
      assert held == p;
      LoadSucceeds(major, oks);
      ret := 0;
    }

    /** `bcm23_led_exit`, after a successful init. */
    method Exit()
      requires held == Plan(major)
      modifies this`held, this`log
      ensures held == [] && log == old(log) + UnloadLog(major)
    {
      var minor := MINOR_BASE;
      while minor < MINOR_BASE + MINOR_NUM
        invariant MINOR_BASE <= minor <= MINOR_BASE + MINOR_NUM
        invariant held == Plan(major)[..|Plan(major)| - (minor - MINOR_BASE)]
        invariant log == old(log) + Releases(Nodes(major, MINOR_BASE, minor - MINOR_BASE))
      {
        Unregister(DeviceNode(major, minor));
        minor := minor + 1;
      }
      Unregister(DeviceClass);
      Unregister(CharDev(major));
      Unregister(Region(major));
    }
  }
}
