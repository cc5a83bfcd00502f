/** The ordered decode queue (decode.rs:132-182): its two critical sections and the drain loop. How they
    interleave is the subject of module Delivery. */
module DecodeQueues {
  import opened Values
  import opened Decoding

  datatype QueueState = QueueState(queue: seq<DecodeJob>, running: bool)

  /** Under the lock, `push` appends the job and claims the drainer role if nobody has it. */
  function PushTo(q: QueueState, job: DecodeJob): QueueState {
    QueueState(q.queue + [job], true)
  }

  /** Under the lock, `drain` takes the first job or gives the drainer role up. */
  function PopFrom(q: QueueState): (QueueState, Option<DecodeJob>) {
    if q.queue == [] then (q.(running := false), None)
    else (q.(queue := q.queue[1..]), Some(q.queue[0]))
  }

  class OrderedDecodeQueue {
    var queue: seq<DecodeJob>
    var running: bool

    ghost function View(): QueueState
      reads this
    {
      QueueState(queue, running)
    }

    constructor ()
      ensures View() == QueueState([], false)
    {
      queue, running := [], false;
    }

    method Push(job: DecodeJob) returns (shouldSpawn: bool)
      modifies this
      ensures View() == PushTo(old(View()), job)
      ensures shouldSpawn == !old(running)
    {
      queue := queue + [job];
      if !running {
        running := true;
        shouldSpawn := true;
      } else {
        shouldSpawn := false;
      }
    }

    method NextJob() returns (job: Option<DecodeJob>)
      modifies this
      ensures (View(), job) == PopFrom(old(View()))
    {
      if queue == [] {
        running := false;
        return None;
      }
      job := Some(queue[0]);
      queue := queue[1..];
    }

    /** `drain`, undisturbed: every queued job runs, once and in order. */
    method Drain() returns (ran: seq<DecodeJob>)
      modifies this
      ensures ran == old(queue)
      ensures View() == QueueState([], false)
    {
      ran := [];
      while true
        invariant ran + queue == old(queue)
        decreases |queue|
      {
        var job := NextJob();
        if job.None? {
          return;
        }
        ran := ran + [job.value];
      }
    }
  }
}
