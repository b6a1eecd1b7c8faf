/** NTSTATUS codes. `raw` holds the 32 bits of the signed value the kernel uses. */
module NtStatuses {

  datatype NtStatus = NtStatus(raw: bv32) {
    /** The kernel macro NT_ERROR: severity bits 11. */
    predicate IsError() {
      raw >= 0xC000_0000
    }
  }

  const SUCCESS := NtStatus(0x0000_0000)
  const UNSUCCESSFUL := NtStatus(0xC000_0001)
  const INVALID_PARAMETER := NtStatus(0xC000_000D)
  const INVALID_DEVICE_REQUEST := NtStatus(0xC000_0010)
  const BUFFER_TOO_SMALL := NtStatus(0xC000_0023)
  const NOT_SUPPORTED := NtStatus(0xC000_00BB)
}
