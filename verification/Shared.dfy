/** Enumerations shared by the services. */
module Shared {

  datatype WorkOrderStatus = NEW | ASSIGNED | IN_PROGRESS | WAITING_APPROVAL | COMPLETED | CANCELLED

  datatype NoteType = PROGRESS | PAUSE_START | PAUSE_END | WAITING_APPROVAL_START | WAITING_APPROVAL_END
}
