/**
 * The effectful calls a run of the command makes, and the ghost log the
 * repository and the message client append them to as they are made.
 */
module Calls {

  /** One effectful call, in the order the run makes it. */
  datatype Step =
    | ConfigLoad
    | RepoOpen
    | StatusQuery
    | StageAllCall
    | DiffQuery
    | GenerateCall(diff: string)
    | CommitCall(message: string)

  /** The calls made so far; shared by the objects a run talks to. */
  class Log {
    ghost var steps: seq<Step>
  }
}
