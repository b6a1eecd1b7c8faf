/** The `WdmDriver` trait: its callbacks and what each does when a driver does not override it. */
module WdmDriver {
  import opened NtStatuses
  import opened Irps
  import opened Requests

  datatype Callback =
    OnCreate | OnClose | OnRead | OnWrite | OnDeviceControl | OnInternalDeviceControl | OnPower | OnPnp
  | OnCleanup | OnQueryInformation | OnSetInformation

  function DefaultStatus(cb: Callback): NtStatus {
    match cb
    case OnCreate | OnClose | OnCleanup => SUCCESS
    case _ => NOT_SUPPORTED
  }

  /** A default method: the request is completed once, on the spot. */
  method Default(cb: Callback, request: IoRequest) returns (status: NtStatus)
    requires request.Holds()
    modifies request, request.irp
    ensures status == DefaultStatus(cb) && request.disposition == Completed
    ensures status.raw == if cb in {OnCreate, OnClose, OnCleanup} then 0 else 0xC000_00BB
    ensures request.irp.State() == old(request.irp.State()).Completed(status)
  {
    match cb
    case OnCreate | OnClose | OnCleanup => status := request.Complete(SUCCESS);
    case _ => status := request.Complete(NOT_SUPPORTED);
  }
}
