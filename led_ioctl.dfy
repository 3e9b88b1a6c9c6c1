/** The driver's ioctl interface header: the two-integer control record and
    the two request codes.

    Request codes follow the generic ioctl number layout of Linux
    (include/uapi/asm-generic/ioctl.h, used on ARM): bits 0-7 hold the
    command number, bits 8-15 the type, bits 16-29 the argument size and
    bits 30-31 the direction, where 1 is write (caller to driver) and 2 is
    read (driver to caller). */
module LedIoctl {

  /** C `int` on the target: 32-bit two's complement. */
  newtype Int32 = x: int | -0x8000_0000 <= x < 0x8000_0000

  const SIZEOF_INT: nat := 4

  /** `struct bcm23_led_values`: exactly two signed ints. */
  datatype LedValues = LedValues(val1: Int32, val2: Int32)

  /** The record a static `struct bcm23_led_values` holds before any store. */
  const ZERO_VALUES: LedValues := LedValues(0, 0)

  /** `sizeof(struct bcm23_led_values)`: two ints, no padding. */
  const SIZEOF_LED_VALUES: nat := 2 * SIZEOF_INT

  const IOC_WRITE: bv32 := 1
  const IOC_READ: bv32 := 2

  const IOC_TYPE: bv32 := 1

  function IocDir(cmd: bv32): bv32 { (cmd >> 30) & 0x3 }
  function IocType(cmd: bv32): bv32 { (cmd >> 8) & 0xFF }
  function IocNr(cmd: bv32): bv32 { cmd & 0xFF }
  function IocSize(cmd: bv32): bv32 { (cmd >> 16) & 0x3FFF }

  /** `_IOC(dir, type, nr, size)`: every field can be read back. */
  function Ioc(dir: bv32, typ: bv32, nr: bv32, size: bv32): (cmd: bv32)
    requires dir < 4 && typ < 0x100 && nr < 0x100 && size < 0x4000
    ensures IocDir(cmd) == dir && IocType(cmd) == typ
    ensures IocNr(cmd) == nr && IocSize(cmd) == size
  {
    (dir << 30) | (size << 16) | (typ << 8) | nr
  }

  /** `_IOW(IOC_TYPE, 1, struct bcm23_led_values)` */
  const DEVICE_SET_VALUES: bv32 := Ioc(IOC_WRITE, IOC_TYPE, 1, SIZEOF_LED_VALUES as bv32)

  /** `_IOR(IOC_TYPE, 2, struct bcm23_led_values)` */
  const DEVICE_GET_VALUES: bv32 := Ioc(IOC_READ, IOC_TYPE, 2, SIZEOF_LED_VALUES as bv32)

  /** The two codes share the type, differ in command number and direction,
      and both carry the size of the record the driver copies. */
  lemma RequestCodes()
    ensures IocType(DEVICE_SET_VALUES) == IocType(DEVICE_GET_VALUES) == IOC_TYPE
    ensures IocNr(DEVICE_SET_VALUES) == 1 && IocNr(DEVICE_GET_VALUES) == 2
    ensures IocDir(DEVICE_SET_VALUES) == IOC_WRITE && IocDir(DEVICE_GET_VALUES) == IOC_READ
    ensures IocSize(DEVICE_SET_VALUES) == IocSize(DEVICE_GET_VALUES) == SIZEOF_LED_VALUES as bv32
    ensures DEVICE_SET_VALUES == 0x4008_0101 && DEVICE_GET_VALUES == 0x8008_0102
    ensures DEVICE_SET_VALUES != DEVICE_GET_VALUES
  {
  }
}
