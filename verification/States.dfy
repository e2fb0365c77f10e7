/** The authoritative job and chunk state machines. */
module States {

  datatype JobState = Received | Validating | Planning | Processing | Completed | Failed | Rejected

  datatype ChunkState = ChunkPending | ChunkRunning | ChunkRetryPending | ChunkCompleted | ChunkFailed

  function JobTransitions(s: JobState): set<JobState> {
    match s
    case Received => {Validating, Rejected, Failed}
    case Validating => {Planning, Rejected, Failed}
    case Planning => {Processing, Completed, Rejected, Failed}
    case Processing => {Completed, Failed}
    case Completed => {}
    case Failed => {}
    case Rejected => {}
  }

  function ChunkTransitions(s: ChunkState): set<ChunkState> {
    match s
    case ChunkPending => {ChunkRunning}
    case ChunkRunning => {ChunkCompleted, ChunkRetryPending, ChunkFailed}
    case ChunkRetryPending => {ChunkRunning}
    case ChunkCompleted => {}
    case ChunkFailed => {}
  }

  predicate JobTerminal(s: JobState) { JobTransitions(s) == {} }
  predicate ChunkTerminal(s: ChunkState) { ChunkTransitions(s) == {} }

  /** A step of the job machine: stay, or follow one edge of its table. */
  predicate JobMoves(s: JobState, t: JobState) { s == t || t in JobTransitions(s) }
  predicate ChunkMoves(s: ChunkState, t: ChunkState) { s == t || t in ChunkTransitions(s) }

  /** What the ledger stores. The phased lifecycle and the older vocabulary share
      the column; COMPLETED and FAILED belong to both. */
  datatype Status =
    | RECEIVED | VALIDATING | PLANNING | REJECTED
    | PENDING | SCHEDULED | SCHEDULING_FAILED | RUNNING
    | COMPLETED | FAILED

  /** The documented correspondence of the older statuses. */
  function Canonical(s: Status): JobState {
    match s
    case RECEIVED => Received
    case VALIDATING => Validating
    case PLANNING => Planning
    case REJECTED => Rejected
    case PENDING => Planning
    case SCHEDULED => Processing
    case SCHEDULING_FAILED => Failed
    case RUNNING => Processing
    case COMPLETED => Completed
    case FAILED => Failed
  }
}
