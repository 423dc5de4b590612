// The three status vocabularies and the map that couples two of them.
module Statuses {

  datatype TaskStatus = TaskPending | TaskRunning | TaskCompleted | TaskFailed | TaskCanceled

  datatype CommandStatus =
    | CommandPending | CommandRunning | CommandCompleted
    | CommandFailed | CommandTimeout | CommandCanceled

  // HostFailed: the command could not be delivered. HostExecFailed: it ran and failed.
  datatype HostStatus =
    | HostPending | HostRunning | HostFailed | HostExecFailed
    | HostTimeout | HostCanceled | HostCompleted

  // The command status that a command-host status stands for.
  function Image(h: HostStatus): CommandStatus {
    match h
    case HostPending => CommandPending
    case HostRunning => CommandRunning
    case HostFailed => CommandFailed
    case HostExecFailed => CommandFailed
    case HostTimeout => CommandTimeout
    case HostCanceled => CommandCanceled
    case HostCompleted => CommandCompleted
  }

  // The command-host status that a plain status update writes.
  function HostStatusFor(c: CommandStatus): HostStatus {
    match c
    case CommandRunning => HostRunning
    case CommandCompleted => HostCompleted
    case CommandFailed => HostExecFailed
    case CommandTimeout => HostTimeout
    case CommandCanceled => HostCanceled
    case CommandPending => HostPending
  }

  // The strings that the status columns hold. Command-host statuses are stored
  // in Chinese.
  function HostStatusName(h: HostStatus): string {
    match h
    case HostPending => "\U{5F85}\U{6267}\U{884C}"
    case HostRunning => "\U{8FD0}\U{884C}\U{4E2D}"
    case HostFailed => "\U{4E0B}\U{53D1}\U{5931}\U{8D25}"
    case HostExecFailed => "\U{6267}\U{884C}\U{5931}\U{8D25}"
    case HostTimeout => "\U{6267}\U{884C}\U{8D85}\U{65F6}"
    case HostCanceled => "\U{53D6}\U{6D88}\U{6267}\U{884C}"
    case HostCompleted => "\U{6267}\U{884C}\U{5B8C}\U{6210}"
  }

  function CommandStatusName(c: CommandStatus): string {
    match c
    case CommandPending => "pending"
    case CommandRunning => "running"
    case CommandCompleted => "completed"
    case CommandFailed => "failed"
    case CommandTimeout => "timeout"
    case CommandCanceled => "canceled"
  }

  predicate IsFailure(h: HostStatus) {
    h.HostFailed? || h.HostExecFailed? || h.HostTimeout?
  }

  predicate Unfinished(h: HostStatus) {
    h.HostPending? || h.HostRunning?
  }

  predicate CommandUnfinished(c: CommandStatus) {
    c.CommandPending? || c.CommandRunning?
  }

  predicate TaskFinished(t: TaskStatus) {
    t.TaskCompleted? || t.TaskFailed? || t.TaskCanceled?
  }

}
