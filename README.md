# GPIO 23 LED character driver, modelled in Dafny

This project models the Linux character-device driver `BCM23_Led_Driver` for the Raspberry Pi 4 (BCM2711 SoC). The driver publishes `/dev/bcm23_led0`:

- opening the device configures GPIO 23 as an output;
- writing the single byte `'1'` or `'0'` drives the pin high or low;
- reading returns the pin's level as an ASCII digit followed by NUL;
- two ioctl requests set and get a module-wide record of two ints;
- module load registers, in order, a device-number region, a cdev, a device class and one device node per minor. A failure of one of the first three gives back what was registered in reverse order; the result of creating a device node is not checked. Unload tears everything down in exact reverse.

Modules:

- `Gpio` (`gpio.dfy`): the GPIO register page as a sequence of 32-bit words, with byte offsets from section 5.2 ("Register View") of the BCM2711 ARM Peripherals manual. It holds the three read-modify-write operations the driver performs and the level test. Each update is specified by a frame predicate, `OnlyBitsSet`: exactly these bits of this word become one, and nothing else changes.
- `LedIoctl` (`led_ioctl.dfy`): the header. It holds the two-int record and the `_IOW`/`_IOR` request codes, built with the generic Linux ioctl number layout: number in bits 0-7, type in bits 8-15, size in bits 16-29, direction in bits 30-31.
- `Lifecycle` (`lifecycle.dfy`): load and unload as a stack of resource tokens with a log of registrations and unregistrations.
  - `Replay` is the reference for a well-ordered log: every release must give back the most recent holding.
  - `AcquireInOrder` is the load sequence, a run of reversible steps that unwinds on the first failure.
- `LedDriver` (`led_driver.dfy`): the file operations and the module state.
  - Each entry point is a function over values (`ReadStep`, `WriteStep`, `IoctlStep`, `Lifecycle.Load`).
  - A method of the class `Driver` updates the state in place: the register array, `stored_values`, `led23_major`, the held registrations and the open sessions. Each such method is proved to agree with its function.
  - `OpenFile` stands for `struct file` and its `private_data`.

Kernel calls whose outcome the driver only tests are parameters:

- whether `kmalloc` returns memory;
- whether a user copy faults;
- whether each registration call succeeds.

What a faulting copy leaves in kernel memory is also a parameter (`residue`), because the kernel may have copied part of it.

On these points the model follows the code rather than a cleaner design:

- An unknown ioctl command returns `-EFAULT`, not a separate error.
- A failing register mapping is never detected.
- `open` only ORs bit 9 into the function-select word, so GPIO 23 ends up in output mode only if bits 10-11 of its field were already clear (`Gpio.ConfigureOutputSelectsOutputIff`).

For the three defects listed under Findings the model keeps two versions. `LedDriver.ReadStep`, `LedDriver.WriteStep`, `Lifecycle.Load` and every method of `LedDriver.Driver` model the corrected driver: a read releases the register mapping on the fault path, a write copies at most 256 bytes, and a failing `device_create` rolls back the whole load. `LedDriver.CopyInAsWritten`, `LedDriver.WriteStepAsWritten` and `Lifecycle.LoadAsWritten` follow the code as written, and the Findings lemmas compare the two.

## Model

| member | source | states |
|---|---|---|
| `Gpio.OrInto` | BCM23_Led_Driver.c:78 | ORing a mask into the register at an offset replaces that one word by its old value OR the mask and leaves every other word of the window unchanged |
| `Gpio.PinHigh` | BCM23_Led_Driver.c:100 | the pin reads high exactly when bit 23 of the GPLEV0 word (offset 0x34) is one |
| `Gpio.ConfigureOutput` | BCM23_Led_Driver.c:76-80 | open sets bit 9 of the GPFSEL2 word (offset 0x08); every other bit of that word and every other register word keep their values |
| `Gpio.ConfigureOutputSelectsOutputIff` | BCM23_Led_Driver.c:77-78 | GPIO 23's function field becomes its old value OR 001; it reads 001 (output) afterwards if and only if it was 000 or 001 before, because bits 10-11 are never cleared |
| `Gpio.SetPin` | BCM23_Led_Driver.c:130-131 | driving high sets bit 23 of GPSET0 (offset 0x1C) and changes nothing else |
| `Gpio.ClearPin` | BCM23_Led_Driver.c:127-128 | driving low sets bit 23 of GPCLR0 (offset 0x28) and changes nothing else |
| `Gpio.Drive` | BCM23_Led_Driver.c:126-135 | byte `'0'` sets only the pin's GPCLR0 bit; byte `'1'` sets only its GPSET0 bit; any other byte leaves the window unchanged |
| `Gpio.DriveKeepsLevelAndFunction` | BCM23_Led_Driver.c:126-135 | driving the pin never changes the level word GPLEV0 or the function-select word GPFSEL2 |
| `LedIoctl.Ioc` | BCM23_Led_Driver.h:15-18 | an ioctl number built from direction, type, number and size gives back each of the four fields |
| `LedIoctl.RequestCodes` | BCM23_Led_Driver.h:12-18 | SET and GET share type 1, carry numbers 1 and 2, are write- and read-direction, both encode the 8-byte record size, equal 0x40080101 and 0x80080102, and are distinct |
| `Lifecycle.Nodes` | BCM23_Led_Driver.c:197-198 | the node loop creates exactly one node per minor, for minors base, base+1, ... in that order |
| `Lifecycle.Unwind` | BCM23_Led_Driver.c:183-193 | giving back holdings releases each one exactly once, most recent first |
| `Lifecycle.ReplayAcquisitions` | BCM23_Led_Driver.c:167-198 | registering a sequence of resources pushes them onto what is held, in order |
| `Lifecycle.ReplayUnwind` | BCM23_Led_Driver.c:183-193 | unwinding the top of the stack is well ordered and pops exactly those holdings |
| `Lifecycle.AcquireThenUnwind` | BCM23_Led_Driver.c:160-216 | registering any sequence and then unwinding it is well ordered and leaves nothing held |
| `Lifecycle.AcquisitionsContents` | BCM23_Led_Driver.c:167-198 | the log of a run of registrations names each resource, in the order registered |
| `Lifecycle.AcquisitionsAppend` | BCM23_Led_Driver.c:167-198 | registering one more resource extends the log by that one registration |
| `Lifecycle.AcquireInOrder` | BCM23_Led_Driver.c:167-194 | a run of registration steps returns 0 or -1; on 0 every step is held after what was held before, in order; on -1 nothing is held |
| `Lifecycle.Load` | BCM23_Led_Driver.c:160-201 | load, with every step checked, returns 0 holding region, cdev, class and node in that order, or -1 holding nothing |
| `Lifecycle.UnloadLog` | BCM23_Led_Driver.c:203-216 | exit releases as many resources as load registers, every event is a release, and every resource of the load plan is released |
| `Lifecycle.FirstFailure` | BCM23_Led_Driver.c:167-194 | the index of the first failing registration step: every earlier step succeeded and this one failed |
| `Lifecycle.FirstFailureAt` | BCM23_Led_Driver.c:167-194 | the first failing step is determined by which steps succeed |
| `Lifecycle.AcquireInOrderSucceeds` | BCM23_Led_Driver.c:160-201 | when no step fails, every step is held, in order, and the log is their registrations |
| `Lifecycle.AcquireInOrderFails` | BCM23_Led_Driver.c:167-194 | when step k is the first to fail, the result is -1, nothing is held, and the log registers steps 0..k-1 and then unregisters them in reverse |
| `Lifecycle.LoadFailsAt` | BCM23_Led_Driver.c:167-194 | the same closed form for the driver's load sequence region, cdev, class, node |
| `Lifecycle.LoadSucceeds` | BCM23_Led_Driver.c:160-201 | a load in which every step succeeds holds region, cdev, class and node, registered in that order |
| `Lifecycle.LoadOutcome` | BCM23_Led_Driver.c:160-201 | load returns 0 if and only if every step succeeds; on success it holds the whole plan; on failure it returns -1 holding nothing; its log always replays to what it holds |
| `Lifecycle.UnloadUnwindsPlan` | BCM23_Led_Driver.c:203-216 | exit destroys node, class, cdev and region, the exact reverse of load |
| `Lifecycle.LoadThenUnload` | BCM23_Led_Driver.c:160-216 | a successful load followed by exit is well ordered and leaves nothing registered |
| `Lifecycle.Created` | BCM23_Led_Driver.c:197-198 | as written, the nodes held after the unchecked loop include every node whose creation succeeded, nothing that is not a node of the loop, and no node whose creation failed (when the nodes are distinct) |
| `Lifecycle.LoadAsWritten` | BCM23_Led_Driver.c:160-201 | load as written returns 0 or -1, holds nothing on -1, and returns 0 whenever region, cdev and class succeed, whatever happens to the node |
| `Lifecycle.NodeFailureLoadsWithoutNode` | BCM23_Led_Driver.c:196-200 | as written, when only `device_create` fails, load returns 0 holding region, cdev and class but no node |
| `Lifecycle.NodeFailureReportedAsSuccess` | BCM23_Led_Driver.c:196-200 | as written, a failing `device_create` still yields a successful load that lacks the node; the later exit then destroys a node that does not exist, which the reference rejects |
| `LedDriver.Clamp` | BCM23_Led_Driver.c:96 | a length limited to the 256-byte buffer: unchanged up to 256, 256 above |
| `LedDriver.FillLevel` | BCM23_Led_Driver.c:100-104 | read stores `'1'` in byte 0 if and only if the pin is high (`'0'` otherwise), NUL in byte 1, and leaves bytes 2..255 alone |
| `LedDriver.ReadStep` | BCM23_Led_Driver.c:94-111 | a successful read returns exactly min(count, 256) bytes: the level digit, then NUL, then the untouched rest of the buffer. A fault returns -EFAULT. The buffer is updated either way, and the register mapping is released on both paths |
| `LedDriver.ReadStepAsWritten` | BCM23_Led_Driver.c:94-111 | read as written stores the level digit and NUL; on success it returns min(count, 256) and releases its mapping; on a fault it returns -EFAULT and leaves one more mapping outstanding |
| `LedDriver.ReadFaultLeaksMapping` | BCM23_Led_Driver.c:105-108 | as written, a faulting read leaves one more register mapping outstanding; the model's read leaves none and agrees with the code on success |
| `LedDriver.CopyIn` | BCM23_Led_Driver.c:117 | a copy of at most 256 bytes puts the caller's bytes at the start of the buffer and leaves the rest |
| `LedDriver.CopyInAsWritten` | BCM23_Led_Driver.c:117 | the unlimited copy puts every caller byte at the start of the buffer; up to 256 bytes it is the limited copy, above 256 the result is longer than the buffer |
| `LedDriver.WriteStepAsWritten` | BCM23_Led_Driver.c:113-140 | write as written returns -EFAULT with the registers unchanged on a fault, and otherwise returns the full request length with every caller byte staged |
| `LedDriver.WriteOverrunsBuffer` | BCM23_Led_Driver.c:117-139 | as written, a write longer than 256 bytes returns its full length and leaves more than 256 bytes in the buffer, where the limited write returns 256; up to 256 bytes the two writes give the same result |
| `LedDriver.StoreLevel` | BCM23_Led_Driver.c:103-104 | the in-place stores of the level digit and NUL give the buffer that `FillLevel` specifies |
| `LedDriver.CopyFromUser` | BCM23_Led_Driver.c:117 | the byte loop leaves the buffer that `CopyIn` specifies |
| `LedDriver.WriteStep` | BCM23_Led_Driver.c:113-140 | a fault returns -EFAULT before any register access; otherwise the call returns min(length, 256) and stages the bytes, and only a one-byte write drives the pin |
| `LedDriver.WriteStagesData` | BCM23_Led_Driver.c:117-123 | a successful write returns the length (256 if longer) and the buffer holds the caller's bytes up to that length and its old bytes after |
| `LedDriver.WriteZeroClearsPin` | BCM23_Led_Driver.c:125-129 | a one-byte write of `'0'` sets only the pin's bit in GPCLR0 |
| `LedDriver.WriteOneSetsPin` | BCM23_Led_Driver.c:125-132 | a one-byte write of `'1'` sets only the pin's bit in GPSET0 |
| `LedDriver.WriteOtherKeepsRegisters` | BCM23_Led_Driver.c:121-135 | any other write, of any length or of any other single byte, leaves every register word unchanged |
| `LedDriver.IoctlStep` | BCM23_Led_Driver.c:142-158 | ioctl returns 0 if and only if the command is SET or GET and the copy succeeds; otherwise it returns -EFAULT with no reply. Only SET changes the stored record: on success it stores the caller's record. GET replies with the stored record |
| `LedDriver.StoredIsLastSet` | BCM23_Led_Driver.c:142-158 | after any sequence of requests in which no SET faults, the stored record is the record of the last SET, or the initial one if there was none |
| `LedDriver.GetReturnsLastSet` | BCM23_Led_Driver.c:42 | a GET from any handle after any such sequence since load returns the last record set, or {0, 0} if none was set |
| `LedDriver.WriteThenReadUnderLoopback` | test.c:12-16 | writing `'1'` (or `'0'`) and then reading one byte returns that byte, provided the set and clear registers read zero for the pin before the write and the level read later is high exactly when the write left the pin's GPSET0 bit set and its GPCLR0 bit clear (`Gpio.Loopback`) |
| `LedDriver.Driver.constructor` | BCM23_Led_Driver.c:39-42 | at load the static state is zero: the record {0, 0}, no major number, nothing registered, no sessions |
| `LedDriver.Driver.OrRegister` | BCM23_Led_Driver.c:78 | the in-place OR of a mask into one register word leaves the array holding `OrInto` of its old contents |
| `LedDriver.Driver.Open` | BCM23_Led_Driver.c:67-83 | if allocation fails, open returns -ENOMEM and changes no register and no session. Otherwise it returns 0, attaches a fresh 256-byte session buffer and applies `ConfigureOutput` to the registers. The mapping is released either way |
| `LedDriver.Driver.Release` | BCM23_Led_Driver.c:85-92 | release always returns 0 and leaves `private_data` null. With no session it changes nothing, so a second release is harmless; otherwise the session is freed |
| `LedDriver.Driver.Read` | BCM23_Led_Driver.c:94-111 | read returns, replies and stores what `ReadStep` says, and changes no register word |
| `LedDriver.Driver.Write` | BCM23_Led_Driver.c:113-140 | write returns and leaves buffer and registers as `WriteStep` says; the mapping count is balanced |
| `LedDriver.Driver.DriveRegisters` | BCM23_Led_Driver.c:125-135 | the switch on the staged byte updates the registers as `Drive` says |
| `LedDriver.Driver.Ioctl` | BCM23_Led_Driver.c:142-158 | ioctl returns, replies and stores what `IoctlStep` says and may change nothing but `stored_values` (no register, no session) |
| `LedDriver.Driver.RollBack` | BCM23_Led_Driver.c:183-194 | the cleanup path gives back every holding, most recent first, and leaves nothing held |
| `LedDriver.Driver.Init` | BCM23_Led_Driver.c:160-201 | init returns, holds and logs exactly what `Load` says for the given step outcomes, and records the major number on success |
| `LedDriver.Driver.CreateNodes` | BCM23_Led_Driver.c:196-200 | the minor loop creates each node in turn, and a failing node unwinds everything (corrected behaviour) |
| `LedDriver.Driver.Exit` | BCM23_Led_Driver.c:203-216 | exit after a successful init holds nothing afterwards, and its log is `UnloadLog`, the reverse of load |

## Left out

- Mapping the registers (`ioremap_cache`, `iounmap`) is left out, along with the truncating pointer-to-`int` casts and the missing check that the mapping exists. The register page is an array that is always present. Mappings are counted only to show the leak on the read fault path.
- `strlcat(p->buffer, "dummy", 5)` on freshly allocated, uninitialised memory is left out. The session buffer's contents after open are unspecified.
- `printk`, `DUMP_REG` and the warning for unknown ioctl commands are logging only and are left out.
- Concurrency is not modelled: every call runs alone. The driver takes no locks around `stored_values` or the registers.
- Partial user copies are not modelled exactly: a faulting copy leaves an arbitrary `residue` in the buffer or in `stored_values`.
- `f_pos` is ignored by the driver and by the model.
- The hardware is not modelled: the self-clearing SET/CLR registers and the electrical level. The level register is an input, independent of what was driven; `WriteThenReadUnderLoopback` states the loopback as a hypothesis (`Gpio.Loopback`) relating the level register to the set and clear registers the write left.
- `kmalloc`, `kfree`, `alloc_chrdev_region`, `cdev_init`/`cdev_add`, `class_create`, `device_create` and their inverses are kernel calls. Each is a step with a boolean outcome or a resource token. The `cdev` and class objects themselves are not modelled.
- LedDriver.Driver.Exit destroys nodes in increasing minor order, as the code does. That equals the exact reverse of load (`Lifecycle.UnloadUnwindsPlan`) only because `MINOR_NUM` is 1; no claim is made for more minors.
- LedDriver.Driver.Open does not free a session already attached to the same handle, as the code does not; the model does not track that leak.
- Gpio.OrInto states the new word as the old word OR the mask, not bit by bit; the bit-by-bit frame (`OnlyBitsSet`) is proved for the three masks the driver uses, in `ConfigureOutput`, `SetPin` and `ClearPin`.
- The command-line tool `userGpio.c` is not part of this model: it writes `/dev/mem` directly and is not the driver.

## Findings

| source | as written | input that shows it | evidently intended | confidence | as-written member | corrected member |
|---|---|---|---|---|---|---|
| BCM23_Led_Driver.c:117 | write passes the caller's `count` to `copy_from_user` into the 256-byte session buffer without limiting it | a write of 257 bytes or more | limit the copy to 256 bytes, as read does at line 96 | not executed | `LedDriver.WriteOverrunsBuffer` | `LedDriver.WriteStep` |
| BCM23_Led_Driver.c:105-108 | read returns -EFAULT before `iounmap`, so every faulting read leaks the register mapping | any read whose `copy_to_user` fails | release the mapping on every exit path | not executed | `LedDriver.ReadFaultLeaksMapping` | `LedDriver.ReadStep` |
| BCM23_Led_Driver.c:197-198 | the result of `device_create` is ignored; load reports success without the node, and exit later destroys a node that was never created | step outcomes region ok, cdev ok, class ok, node fails | roll back everything and return -1, like the earlier steps | not executed | `Lifecycle.NodeFailureReportedAsSuccess` | `Lifecycle.LoadOutcome` |
