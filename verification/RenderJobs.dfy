/** A render job's row and the arithmetic on its unrendered tail. */
module RenderJobs {
  import opened Grid

  datatype Option<+T> = None | Some(value: T)

  datatype Status = Pending | Running | Done | Failed | Cancelled

  type Step = s: int | s >= 1 witness 1

  datatype Job = Job(machine: string, status: Status, frameStart: int, frameEnd: int, frameStep: Step,
                     rendered: nat, total: int, attempt: nat, maxRetries: nat, chunkIndex: nat)
  {
    function RemainingStart(): int {
      frameStart + rendered * frameStep
    }

    /** The unrendered tail, or None when nothing is left. */
    function Remaining(): Option<(int, int)> {
      if RemainingStart() > frameEnd then None else Some((RemainingStart(), frameEnd))
    }

    predicate CanRetry() { attempt < maxRetries }

    predicate IsCompleteByFrames() { total > 0 && rendered >= total }

    predicate Active() { status.Pending? || status.Running? }

    /** The frames a worker given the unrendered tail would render. */
    function RemainingFrames(): seq<int> {
      Frames(RemainingStart(), frameEnd, frameStep)
    }
  }
}
