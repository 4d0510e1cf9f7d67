/** Messages and agreement records of the tribe (mgmt/tribe/messages.go,
mgmt/tribe/agreement/agreement.go). */
module TribeTypes {
  import opened LamportClock

  /** What an agreement holds: plugins in one list, task ids in another. */
  datatype Item =
    | PluginItem(name: string, version: int, typeName: string)
    | TaskItem(id: string)

  /** The gossip messages. `AddItem` and `RemoveItem` stand for the plugin message types when
      they carry a `PluginItem` and for the task message types when they carry a `TaskItem`. */
  datatype Msg =
    | AddItem(ltime: LTime, uuid: string, agr: string, item: Item)
    | RemoveItem(ltime: LTime, uuid: string, agr: string, item: Item)
    | AddAgreement(ltime: LTime, uuid: string, agr: string)
    | RemoveAgreement(ltime: LTime, uuid: string, agr: string)
    | JoinAgreement(ltime: LTime, uuid: string, agr: string, member: string)
    | LeaveAgreement(ltime: LTime, uuid: string, agr: string, member: string)
    | StartTask(ltime: LTime, uuid: string, agr: string, taskId: string)
    | StopTask(ltime: LTime, uuid: string, agr: string, taskId: string)
    | TaskStateQuery(ltime: LTime, uuid: string, agr: string, taskId: string)

  /** `uuid.New()` never repeats: two messages with one id are the same message. */
  ghost predicate UniqueIds(ms: seq<Msg>) {
    forall i, j | 0 <= i < |ms| && 0 <= j < |ms| && ms[i].uuid == ms[j].uuid :: ms[i] == ms[j]
  }
}
