/** The values shared by the controller modules. */
module ControlTypes {
  import opened Durable

  datatype Kind = Saves | States

  datatype FolderType = SendOnly | SendReceive | ReceiveOnly | Unsupported

  datatype Operation = Share | Unshare

  datatype Intent = Intent(operation: Operation, device: string)

  /** One record of folder-control.json. */
  datatype Record = Record(
    cardId: string, kind: Kind, markerName: string,
    manual: bool, firstSync: bool, epoch: nat, pendingRescan: bool,
    pendingAdd: bool, pendingMembership: Option<Intent>, pendingStop: bool)

  /** Every epoch is first required and then cleared, so this only grows. */
  function Rank(r: Record): (n: nat) {
    2 * r.epoch + (if r.firstSync then 0 else 1)
  }

  predicate SameClass(a: FolderType, b: FolderType) {
    a.SendOnly? == b.SendOnly?
  }
}
