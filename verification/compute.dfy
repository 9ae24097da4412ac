/** The compute-instance record shared by the instance list, the create
    dialog and the volume attach wizard. */
module Compute {

  datatype ComputeStatus = Running | Stopped | Terminated | Pending

  /** The status as the views spell it, e.g. in the status filter's options. */
  function StatusName(s: ComputeStatus): string {
    match s
    case Running => "Running"
    case Stopped => "Stopped"
    case Terminated => "Terminated"
    case Pending => "Pending"
  }

  /** Distinct statuses are spelled differently, and none is spelled "All". */
  lemma StatusNameInjective(s: ComputeStatus, t: ComputeStatus)
    ensures StatusName(s) == StatusName(t) <==> s == t
    ensures StatusName(s) != "All" && StatusName(s) != ""
  {
  }

  datatype ComputeInstance = ComputeInstance(
    id: string,
    name: string,
    status: ComputeStatus,
    region: string,
    instanceType: string,
    ip: string,
    cpu: string,
    ram: string,
    uptime: string,
    image: string)
}
