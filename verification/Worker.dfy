/** The Worker object; each method is one atomic section, or a loop of them. */
module WorkerObject {
  import opened Wrappers
  import opened WorkerProtocol

  // What becomes of queued tasks that are all run.
  function Outcomes(ts: seq<Task>, ok: Task -> bool): seq<Retired> {
    if ts == [] then []
    else [Retired(ts[0], if ok(ts[0]) then Success else Error)] + Outcomes(ts[1..], ok)
  }

  class Worker {
    var status: Status
    var tasks: seq<Task>
    var currentTask: Option<Task>
    var thread: Thread
    var controller: Controller
    ghost var accepted: seq<Task>
    ghost var retired: seq<Retired>

    ghost function Snapshot(): State
      reads this
    {
      State(status, tasks, currentTask, thread, controller, accepted, retired)
    }

    constructor (q: seq<Task>)
      ensures Snapshot() == Init(q)
    {
      status, tasks, currentTask, thread, controller := Wait, q, None, Testing, Idle;
      accepted, retired := q, [];
    }

    method AddTask(task: Task)
      requires thread != Running
      modifies this
      ensures Some(Snapshot()) == Step(old(Snapshot()), Event.AddTask(task))
    {
      if status == Stop || status == Flush {
        return;
      }
      tasks := tasks + [task];
      accepted := accepted + [task];
    }

    method Start()
      requires controller == Idle
      modifies this
      ensures Some(Snapshot()) == Step(old(Snapshot()), StartCall)
    {
      if status == Stop {
        status := Wait;
        thread := Testing;
      }
    }

    method StopBegin(clearQueue: bool)
      requires controller == Idle && thread != Running
      modifies this
      ensures Some(Snapshot()) == Step(old(Snapshot()), StopCall(clearQueue))
    {
      if status == Stop {
        return;
      }
      status := Stop;
      if clearQueue {
        retired := retired + Discards(tasks);
        tasks := [];
        currentTask := None;
      }
      controller := Joining;
    }

    method FlushBegin()
      requires controller == Idle && thread != Running
      modifies this
      ensures Some(Snapshot()) == Step(old(Snapshot()), FlushCall)
    {
      if status == Flush {
        return;
      }
      status := Flush;
      controller := FlushWait;
    }

    method FlushEmpty()
      requires controller == FlushWait && thread != Running && tasks == []
      modifies this
      ensures Some(Snapshot()) == Step(old(Snapshot()), FlushWake)
    {
      controller := Joining;
    }

    method JoinThread()
      requires controller == Joining && (thread == Exited || thread == Absent)
      modifies this
      ensures Some(Snapshot()) == Step(old(Snapshot()), Join)
    {
      if thread == Exited {
        thread := Absent;
      }
      controller := Idle;
    }

    // With the mutex held no task is in hand: the size counts the accepted tasks that were
    // neither run nor discarded, and those are the last `n` accepted.
    method GetSizeQueue() returns (n: nat)
      requires Inv(Snapshot()) && thread != Running
      ensures n == |accepted| - |retired| && accepted[|accepted| - n..] == tasks
    {
      n := |tasks| + if currentTask != None then 1 else 0;
    }

    // `while(status != Stop)`
    method TestLoop()
      requires thread == Testing
      modifies this
      ensures Some(Snapshot()) == Step(old(Snapshot()), LoopTest)
    {
      thread := if status != Stop then Ready else Exited;
    }

    // From the end of the wait to the start of the task, or to the end of the loop.
    method TakeTask()
      requires thread == Ready && (tasks != [] || status == Stop || status == Flush)
      modifies this
      ensures Some(Snapshot()) == Step(old(Snapshot()), Take)
    {
      if status == Stop {
        thread := Exited;
        return;
      }
      if status == Flush && tasks == [] {
        thread := Exited;
        return;
      }
      if tasks != [] && status != Flush {
        status := Work;
      }
      currentTask := Some(tasks[0]);
      tasks := tasks[1..];
      thread := Running;
    }

    // From the end of the task, which threw unless `ok`, to the next loop test.
    method FinishTask(ok: bool)
      requires thread == Running && currentTask != None
      modifies this
      ensures Some(Snapshot()) == Step(old(Snapshot()), Finish(ok))
    {
      retired := retired + [Retired(currentTask.value, if ok then Success else Error)];
      if status == Stop {
        thread := Exited;
        return;
      }
      currentTask := None;
      if tasks == [] {
        if status != Flush {
          status := Wait;
        }
      }
      thread := Testing;
    }

    // `runThreadTask` once the queue is being flushed: no other thread can change anything any
    // more, so the loop runs on its own to the end.  `ok(t)` tells whether task `t` returns.
    method RunThreadTask(ok: Task -> bool)
      requires thread == Testing && status == Flush && currentTask == None
      modifies this
      ensures thread == Exited && status == Flush && tasks == [] && currentTask == None
      ensures accepted == old(accepted) && controller == old(controller)
      ensures retired == old(retired) + Outcomes(old(tasks), ok)
    {
      while thread != Exited
        invariant thread == Testing || (thread == Exited && tasks == [])
        invariant status == Flush && currentTask == None
        invariant accepted == old(accepted) && controller == old(controller)
        invariant retired + Outcomes(tasks, ok) == old(retired) + Outcomes(old(tasks), ok)
        decreases thread != Exited, |tasks|
      {
        TestLoop();
        TakeTask();
        if thread == Running {
          FinishTask(ok(currentTask.value));
        }
      }
    }
  }
}
