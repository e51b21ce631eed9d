/** The lifecycle that every media node goes through, whatever its hooks do. */
module NodeStates {
  import opened Statuses

  datatype NodeState = Created | Prepared | Running | Draining | Stopped | Error

  datatype PipelineState = Created | Running | Draining | Stopped | Error

  /** The state after a prepare hook answered `hook`. */
  function AfterPrepare(hook: StatusCode): NodeState {
    if hook.OkStatus? then NodeState.Prepared else NodeState.Error
  }

  function AfterStart(hook: StatusCode): NodeState {
    if hook.OkStatus? then NodeState.Running else NodeState.Error
  }

  function AfterTick(hook: StatusCode): NodeState {
    if Benign(hook) then NodeState.Running else NodeState.Error
  }

  function AfterReset(hook: StatusCode): NodeState {
    if hook.OkStatus? then NodeState.Created else NodeState.Error
  }

  /** The status and the state after a stop hook answered `hook`; end of stream counts as success. */
  function AfterStop(hook: StatusCode): (StatusCode, NodeState) {
    if hook.OkStatus? || hook.EndOfStream? then (OkStatus, NodeState.Stopped)
    else if TemporarilyEmpty(hook) then (hook, NodeState.Draining)
    else (hook, NodeState.Error)
  }
}
