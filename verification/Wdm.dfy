/** Constants of the WDK headers. */
module Wdm {

  const IRP_MJ_CREATE := 0x00
  const IRP_MJ_CLOSE := 0x02
  const IRP_MJ_READ := 0x03
  const IRP_MJ_WRITE := 0x04
  const IRP_MJ_DEVICE_CONTROL := 0x0E
  const IRP_MJ_INTERNAL_DEVICE_CONTROL := 0x0F
  const IRP_MJ_POWER := 0x16
  const IRP_MJ_PNP := 0x1B
  const IRP_MJ_MAXIMUM_FUNCTION := 0x1B

  const DO_BUFFERED_IO: bv32 := 0x04
  const DO_DIRECT_IO: bv32 := 0x10
  const DO_DEVICE_INITIALIZING: bv32 := 0x80
}
