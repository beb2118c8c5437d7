/** The echo-canceller worker pool of r2ssp.cpp: one main thread, any number of worker
    threads, two counting semaphores, one mutex and one task queue, as a transition system
    whose actions may be interleaved in any order.

    The main thread pushes its tasks WITHOUT taking the mutex; only the semaphores keep the
    workers away from the queue meanwhile.  The canceller of a channel is modelled by the
    history of microphone frames it has consumed: whatever a deterministic canceller outputs
    is a function of that history, so equal histories mean equal output. */
module AecPool {
  import opened Options

  /** Program point of one worker thread (r2ssp_aec_thread). */
  datatype Worker =
    | Unborn            // pthread_create has not run yet
    | AtWait            // in front of sem_wait(start)
    | Woken             // took a start token, about to read the exit flag
    | AtLock            // in front of the mutex
    | InCritical        // owns the mutex, about to pop
    | Popped(task: nat) // popped, still owns the mutex
    | Working(task: nat)
    | AtPost            // in front of sem_post(stop)
    | Exited
    | Crashed           // popped an empty queue, or used a channel that does not exist

  /** Program point of the thread that calls init, process and free. */
  datatype Main =
    | Creating(k: nat)    // r2ssp_aec_init: thread k is next
    | Echo(k: nat)        // r2ssp_aec_init: canceller k is next
    | Idle
    | Pushing(k: nat)     // r2ssp_aec_process: unlocked push of task k
    | Posting(k: nat)     // r2ssp_aec_process: start token k
    | Waiting(k: nat)     // r2ssp_aec_process: k stop tokens taken
    | Copying             // r2ssp_aec_process: about to copy the output out
    | ExitPosting(k: nat) // r2ssp_aec_free: exit token k
    | Joining(k: nat)     // r2ssp_aec_free: joining thread k
    | Done

  datatype Pool = Pool(
    channels: nat,
    workers: seq<Worker>,
    main: Main,
    tasks: seq<nat>,
    start: nat,
    stop: nat,
    mutex: Option<nat>,
    exitFlag: bool,
    ready: nat,              // cancellers created so far
    mic: seq<int>,           // microphone frame of each channel, this call
    echo: seq<seq<int>>,     // canceller state of each channel
    out: seq<seq<int>>,      // out_buf
    delivered: seq<seq<int>>,// what the last call handed to its caller
    inputs: seq<seq<int>>)   // every call's microphone frames, oldest first

  datatype Command = Proceed | Call(frames: seq<int>) | Shutdown
  datatype Action = MainAct(command: Command) | WorkerAct(w: nat)

  function Init(channels: nat, threads: nat): (s: Pool) {
    Pool(channels, seq(threads, _ => Unborn), Creating(0), [], 0, 0, None, false, 0,
         seq(channels, _ => 0), seq(channels, _ => []), seq(channels, _ => []), [], [])
  }

  // ---------------------------------------------------------------- steps

  predicate MainEnabled(s: Pool, c: Command) {
    match s.main
    case Idle => (c.Call? && |c.frames| == s.channels) || c.Shutdown?
    case Waiting(k) => c.Proceed? && (k < s.channels ==> s.stop > 0)
    case Joining(k) => c.Proceed? && (k < |s.workers| ==> s.workers[k].Exited?)
    case Done => false
    case _ => c.Proceed?
  }

  function MainStep(s: Pool, c: Command): Pool
    requires MainEnabled(s, c)
  {
    match s.main
    case Creating(k) =>
      if k < |s.workers| then s.(workers := s.workers[k := AtWait], main := Creating(k + 1))
      else s.(main := Echo(0))
    case Echo(k) =>
      if k < s.channels then s.(ready := k + 1, main := Echo(k + 1)) else s.(main := Idle)
    case Idle =>
      if c.Call? then s.(mic := c.frames, inputs := s.inputs + [c.frames], main := Pushing(0))
      else s.(exitFlag := true, main := ExitPosting(0))
    case Pushing(k) =>
      if k < s.channels then s.(tasks := s.tasks + [k], main := Pushing(k + 1))
      else s.(main := Posting(0))
    case Posting(k) =>
      if k < s.channels then s.(start := s.start + 1, main := Posting(k + 1))
      else s.(main := Waiting(0))
    case Waiting(k) =>
      if k < s.channels then s.(stop := s.stop - 1, main := Waiting(k + 1))
      else s.(main := Copying)
    case Copying => s.(delivered := s.out, main := Idle)
    case ExitPosting(k) =>
      if k < |s.workers| then s.(start := s.start + 1, main := ExitPosting(k + 1))
      else s.(main := Joining(0))
    case Joining(k) =>
      if k < |s.workers| then s.(main := Joining(k + 1)) else s.(main := Done)
  }

  predicate WorkerEnabled(s: Pool, w: nat) {
    w < |s.workers| &&
    match s.workers[w]
    case Unborn | Exited | Crashed => false
    case AtWait => s.start > 0
    case AtLock => s.mutex.None?
    case _ => true
  }

  function At(s: Pool, w: nat, pc: Worker): Pool
    requires w < |s.workers|
  {
    s.(workers := s.workers[w := pc])
  }

  function WorkerStep(s: Pool, w: nat): Pool
    requires WorkerEnabled(s, w)
  {
    match s.workers[w]
    case AtWait => At(s, w, Woken).(start := s.start - 1)
    case Woken => At(s, w, if s.exitFlag then Exited else AtLock)
    case AtLock => At(s, w, InCritical).(mutex := Some(w))
    case InCritical =>
      if s.tasks == [] then At(s, w, Crashed)
      else At(s, w, Popped(s.tasks[0])).(tasks := s.tasks[1..])
    case Popped(t) => At(s, w, Working(t)).(mutex := None)
    case Working(t) =>
      if t >= s.channels || t >= s.ready || t >= |s.mic| || t >= |s.echo| || t >= |s.out|
      then At(s, w, Crashed)
      else
        var h := s.echo[t] + [s.mic[t]];
        At(s, w, AtPost).(echo := s.echo[t := h], out := s.out[t := h])
    case AtPost => At(s, w, AtWait).(stop := s.stop + 1)
  }

  predicate Enabled(s: Pool, a: Action) {
    match a
    case MainAct(c) => MainEnabled(s, c)
    case WorkerAct(w) => WorkerEnabled(s, w)
  }

  function Do(s: Pool, a: Action): Pool
    requires Enabled(s, a)
  {
    match a
    case MainAct(c) => MainStep(s, c)
    case WorkerAct(w) => WorkerStep(s, w)
  }

  /** `run` is an execution: consecutive states are one enabled action apart. */
  ghost predicate IsRun(run: seq<Pool>, acts: seq<Action>, channels: nat, threads: nat) {
    && |run| == |acts| + 1
    && run[0] == Init(channels, threads)
    && forall i :: 0 <= i < |acts| ==> Enabled(run[i], acts[i]) && run[i + 1] == Do(run[i], acts[i])
  }

  // ---------------------------------------------------------------- counting

  function Total<T>(s: seq<T>, weight: T -> nat): nat {
    if s == [] then 0 else weight(s[0]) + Total(s[1..], weight)
  }

  lemma {:induction false} TotalUpdate<T>(s: seq<T>, i: nat, x: T, weight: T -> nat)
    requires i < |s|
    ensures Total(s[i := x], weight) + weight(s[i]) == Total(s, weight) + weight(x)
  {
    if i == 0 {
      assert s[i := x][1..] == s[1..];
    } else {
      assert s[i := x][1..] == s[1..][i - 1 := x];
      TotalUpdate(s[1..], i - 1, x, weight);
    }
  }

  lemma {:induction false} TotalAtLeast<T>(s: seq<T>, i: nat, weight: T -> nat)
    requires i < |s|
    ensures Total(s, weight) >= weight(s[i])
  {
    if i > 0 { TotalAtLeast(s[1..], i - 1, weight); }
  }

  lemma {:induction false} TotalZero<T>(s: seq<T>, weight: T -> nat)
    requires forall i :: 0 <= i < |s| ==> weight(s[i]) == 0
    ensures Total(s, weight) == 0
  {
    if s != [] { TotalZero(s[1..], weight); }
  }

  /** A sum of 0/1 weights is at most the length, and reaches it only if every weight is 1. */
  lemma {:induction false} TotalBound<T>(s: seq<T>, weight: T -> nat)
    requires forall i :: 0 <= i < |s| ==> weight(s[i]) <= 1
    ensures Total(s, weight) <= |s|
    ensures Total(s, weight) == |s| ==> forall i :: 0 <= i < |s| ==> weight(s[i]) == 1
  {
    if s != [] {
      TotalBound(s[1..], weight);
      assert forall i :: 0 < i < |s| ==> s[i] == s[1..][i - 1];
    }
  }

  function Pre(w: Worker): nat { if w.Woken? || w.AtLock? || w.InCritical? then 1 else 0 }
  function Held(w: Worker): nat { if w.Popped? || w.Working? then 1 else 0 }
  function Finished(w: Worker): nat { if w.AtPost? then 1 else 0 }
  function Leaving(w: Worker): nat { if w.Woken? || w.Exited? then 1 else 0 }
  /** A channel is done when its canceller has consumed all `n` frames. */
  function DoneAt(n: nat): seq<int> -> nat { (h: seq<int>) => if |h| == n then 1 else 0 }

  // ---------------------------------------------------------------- invariant

  function Column(inputs: seq<seq<int>>, c: nat): (r: seq<int>)
    requires forall i :: 0 <= i < |inputs| ==> c < |inputs[i]|
  {
    seq(|inputs|, i requires 0 <= i < |inputs| => inputs[i][c])
  }

  function Range(lo: nat, hi: nat): seq<nat>
    requires lo <= hi
  {
    seq(hi - lo, i requires 0 <= i => lo + i)
  }

  /** `h` is a prefix of channel `c`'s column of the inputs. */
  ghost predicate Consumed(h: seq<int>, inputs: seq<seq<int>>, c: nat) {
    |h| <= |inputs| && forall i :: 0 <= i < |h| ==> c < |inputs[i]| && h[i] == inputs[i][c]
  }

  /** A canceller is at most one frame behind, and has consumed exactly its own column. */
  ghost predicate DataOk(channels: nat, mic: seq<int>, echo: seq<seq<int>>, out: seq<seq<int>>, inputs: seq<seq<int>>) {
    && |mic| == |echo| == channels && out == echo
    && (forall i :: 0 <= i < |inputs| ==> |inputs[i]| == channels)
    && (inputs != [] ==> mic == inputs[|inputs| - 1])
    && (forall c {:trigger echo[c]} :: 0 <= c < channels ==>
          |inputs| <= |echo[c]| + 1 && Consumed(echo[c], inputs, c))
  }

  ghost predicate Shape(s: Pool) {
    DataOk(s.channels, s.mic, s.echo, s.out, s.inputs)
  }

  ghost predicate AllDone(echo: seq<seq<int>>, n: nat) {
    forall c :: 0 <= c < |echo| ==> |echo[c]| == n
  }

  /** Channels from `from` on have not consumed the frame of the current call. */
  ghost predicate NoneDone(echo: seq<seq<int>>, n: nat, from: int) {
    forall c :: 0 <= c < |echo| && from <= c ==> |echo[c]| < n
  }

  ghost predicate MutexOk(mutex: Option<nat>, workers: seq<Worker>) {
    && (mutex.Some? ==> mutex.value < |workers|)
    && forall w :: 0 <= w < |workers| ==>
        ((workers[w].InCritical? || workers[w].Popped?) <==> mutex == Some(w))
  }

  ghost predicate AllWaiting(workers: seq<Worker>, born: int) {
    forall w :: 0 <= w < |workers| ==> workers[w] == if w < born then AtWait else Unborn
  }

  ghost predicate Alive(workers: seq<Worker>) {
    forall w :: 0 <= w < |workers| ==> !workers[w].Unborn? && !workers[w].Exited? && !workers[w].Crashed?
  }

  /** Held tasks were popped, are not done, and are held once. */
  ghost predicate HeldOk(workers: seq<Worker>, popped: int, echo: seq<seq<int>>, n: nat) {
    && (forall w :: 0 <= w < |workers| && Held(workers[w]) == 1 ==>
          workers[w].task < popped && workers[w].task < |echo| && |echo[workers[w].task]| < n)
    && (forall v, w :: 0 <= v < w < |workers| && Held(workers[v]) == 1 && Held(workers[w]) == 1 ==>
          workers[v].task != workers[w].task)
  }

  ghost predicate AllLeaving(workers: seq<Worker>) {
    forall w :: 0 <= w < |workers| ==> workers[w].AtWait? || workers[w].Woken? || workers[w].Exited?
  }

  /** No call in progress, or its tokens not yet posted: every living worker sits at sem_wait. */
  ghost predicate Quiet(s: Pool, born: int) {
    s.start == 0 && s.stop == 0 && s.mutex.None? && !s.exitFlag && AllWaiting(s.workers, born)
  }

  /** A call in progress, with `posted` start tokens given and `waited` stop tokens taken. */
  ghost predicate Active(s: Pool, posted: nat, waited: nat) {
    && !s.exitFlag && s.inputs != [] && s.ready == s.channels
    && |s.tasks| <= s.channels && s.tasks == Range(s.channels - |s.tasks|, s.channels)
    && posted <= s.channels && waited <= s.channels
    && MutexOk(s.mutex, s.workers) && Alive(s.workers)
    && HeldOk(s.workers, s.channels - |s.tasks|, s.echo, |s.inputs|)
    && NoneDone(s.echo, |s.inputs|, s.channels - |s.tasks|)
    && s.start + Total(s.workers, Pre) + s.channels == posted + |s.tasks|
    && s.channels == |s.tasks| + Total(s.workers, Held) + Total(s.echo, DoneAt(|s.inputs|))
    && Total(s.echo, DoneAt(|s.inputs|)) == Total(s.workers, Finished) + s.stop + waited
  }

  ghost predicate ShuttingDown(s: Pool, posted: nat) {
    && s.exitFlag && s.tasks == [] && s.stop == 0 && s.mutex.None?
    && posted <= |s.workers|
    && AllLeaving(s.workers)
    && s.start + Total(s.workers, Leaving) == posted
  }

  ghost predicate Joined(workers: seq<Worker>, k: int) {
    forall w :: 0 <= w < k && w < |workers| ==> workers[w].Exited?
  }

  ghost predicate Phase(s: Pool) {
    match s.main
    case Creating(k) => k <= |s.workers| && s.ready == 0 && Quiet(s, k) && s.tasks == [] && s.inputs == []
    case Echo(k) => k <= s.channels && s.ready == k && Quiet(s, |s.workers|) && s.tasks == [] && s.inputs == []
    case Idle => s.ready == s.channels && Quiet(s, |s.workers|) && s.tasks == [] &&
                 AllDone(s.echo, |s.inputs|) && (s.inputs != [] ==> s.delivered == s.echo)
    case Pushing(k) => s.ready == s.channels && k <= s.channels && Quiet(s, |s.workers|) &&
                       s.tasks == Range(0, k) && s.inputs != [] && NoneDone(s.echo, |s.inputs|, 0)
    case Posting(k) => Active(s, k, 0)
    case Waiting(k) => Active(s, s.channels, k)
    case Copying => Active(s, s.channels, s.channels)
    case ExitPosting(k) => ShuttingDown(s, k)
    case Joining(k) => k <= |s.workers| && ShuttingDown(s, |s.workers|) && Joined(s.workers, k)
    case Done => ShuttingDown(s, |s.workers|) && Joined(s.workers, |s.workers|)
  }

  ghost predicate Inv(s: Pool) { Shape(s) && Phase(s) }

  // ---------------------------------------------------------------- preservation

  lemma QuietCounts(s: Pool, born: int)
    requires Quiet(s, born)
    ensures Total(s.workers, Pre) == Total(s.workers, Held) == Total(s.workers, Finished) == 0
    ensures Total(s.workers, Leaving) == 0
  {
    TotalZero(s.workers, Pre);
    TotalZero(s.workers, Held);
    TotalZero(s.workers, Finished);
    TotalZero(s.workers, Leaving);
  }

  /** Once all stop tokens of a call are taken, the pool is back to rest and every channel is done. */
  lemma CallComplete(s: Pool)
    requires |s.echo| == s.channels && Active(s, s.channels, s.channels)
    ensures AllDone(s.echo, |s.inputs|) && s.tasks == [] && s.start == 0 && s.stop == 0 && s.mutex.None?
    ensures AllWaiting(s.workers, |s.workers|)
  {
    hide HeldOk;
    var done := DoneAt(|s.inputs|);
    TotalBound(s.echo, done);
    forall c | 0 <= c < |s.echo| ensures |s.echo[c]| == |s.inputs| {
      assert done(s.echo[c]) == 1;
    }
    forall w | 0 <= w < |s.workers| ensures s.workers[w].AtWait? {
      TotalAtLeast(s.workers, w, Pre);
      TotalAtLeast(s.workers, w, Held);
      TotalAtLeast(s.workers, w, Finished);
    }
  }

  lemma PostingStarts(s: Pool)
    requires Phase(s) && s.main == Pushing(s.channels)
    ensures Phase(s.(main := Posting(0)))
  {
    QuietCounts(s, |s.workers|);
    TotalZero(s.echo, DoneAt(|s.inputs|));
  }

  lemma CallShape(s: Pool, frames: seq<int>)
    requires Inv(s) && s.main.Idle? && |frames| == s.channels
    ensures Inv(MainStep(s, Call(frames)))
  {
    var s' := MainStep(s, Call(frames));
    assert s'.tasks == Range(0, 0);
    forall c | 0 <= c < s.channels ensures Consumed(s'.echo[c], s'.inputs, c) && |s'.echo[c]| < |s'.inputs| {
      assert Consumed(s.echo[c], s.inputs, c);
    }
  }

  lemma MainPreserves(s: Pool, c: Command)
    requires Inv(s) && MainEnabled(s, c)
    ensures Inv(MainStep(s, c))
  {
    hide DataOk, MutexOk, HeldOk, Alive, NoneDone, AllLeaving;
    match s.main
    case Idle =>
      if c.Call? { CallShape(s, c.frames); } else { ShutdownStarts(s); }
    case Pushing(k) =>
      if k == s.channels { PostingStarts(s); } else { assert MainStep(s, c).tasks == Range(0, k + 1); }
    case Copying => CallEnds(s);
    case Echo(_) => EchoStep(s);
    case Posting(_) => CountStep(s);
    case Waiting(_) => CountStep(s);
    case _ =>
  }

  lemma CountStep(s: Pool)
    requires Inv(s) && MainEnabled(s, Proceed) && (s.main.Posting? || s.main.Waiting?)
    ensures Inv(MainStep(s, Proceed))
  {
    hide DataOk, MutexOk, HeldOk, Alive, NoneDone;
  }

  lemma EchoStep(s: Pool)
    requires Inv(s) && s.main.Echo?
    ensures Inv(MainStep(s, Proceed))
  {
    forall c | 0 <= c < s.channels ensures |s.echo[c]| == 0 {
      assert Consumed(s.echo[c], s.inputs, c);
    }
  }

  lemma ShutdownStarts(s: Pool)
    requires Phase(s) && s.main.Idle?
    ensures Phase(MainStep(s, Shutdown))
  {
    QuietCounts(s, |s.workers|);
  }

  lemma CallEnds(s: Pool)
    requires Inv(s) && s.main.Copying?
    ensures Inv(MainStep(s, Proceed))
  {
    assert |s.echo| == s.channels && s.out == s.echo;
    hide DataOk, HeldOk;
    CallComplete(s);
  }

  /** Moving one worker changes each count by the difference of its weights. */
  lemma Moved(s: Pool, w: nat, pc: Worker)
    requires w < |s.workers|
    ensures var ws := s.workers[w := pc];
      && Total(ws, Pre) + Pre(s.workers[w]) == Total(s.workers, Pre) + Pre(pc)
      && Total(ws, Held) + Held(s.workers[w]) == Total(s.workers, Held) + Held(pc)
      && Total(ws, Finished) + Finished(s.workers[w]) == Total(s.workers, Finished) + Finished(pc)
      && Total(ws, Leaving) + Leaving(s.workers[w]) == Total(s.workers, Leaving) + Leaving(pc)
  {
    TotalUpdate(s.workers, w, pc, Pre);
    TotalUpdate(s.workers, w, pc, Held);
    TotalUpdate(s.workers, w, pc, Finished);
    TotalUpdate(s.workers, w, pc, Leaving);
  }

  lemma HeldAfterPop(ws: seq<Worker>, w: nat, t: nat, echo: seq<seq<int>>, n: nat)
    requires HeldOk(ws, t, echo, n) && w < |ws| && ws[w].InCritical? && t < |echo| && |echo[t]| < n
    ensures HeldOk(ws[w := Popped(t)], t + 1, echo, n)
  {
  }

  /** The heart of the protocol: a worker inside the critical section always finds a task. */
  lemma PopFinds(s: Pool, w: nat, posted: nat, waited: nat)
    requires |s.echo| == s.channels && Active(s, posted, waited) && w < |s.workers| && s.workers[w].InCritical?
    ensures s.tasks != [] && s.tasks[0] == s.channels - |s.tasks|
    ensures Active(WorkerStep(s, w), posted, waited)
  {
    hide HeldOk, Total;
    TotalAtLeast(s.workers, w, Pre);
    var t := s.tasks[0];
    var s' := WorkerStep(s, w);
    Moved(s, w, Popped(t));
    assert s'.tasks == Range(s'.channels - |s'.tasks|, s'.channels);
    HeldAfterPop(s.workers, w, t, s.echo, |s.inputs|);
  }

  lemma WorkData(s: Pool, t: nat)
    requires Shape(s) && s.inputs != [] && t < s.channels && |s.echo[t]| < |s.inputs|
    ensures |s.echo[t]| == |s.inputs| - 1
    ensures var e := s.echo[t := s.echo[t] + [s.mic[t]]]; DataOk(s.channels, s.mic, e, e, s.inputs)
  {
    assert Consumed(s.echo[t], s.inputs, t);
  }

  lemma HeldAfterWork(ws: seq<Worker>, w: nat, popped: int, echo: seq<seq<int>>, n: nat, h: seq<int>)
    requires HeldOk(ws, popped, echo, n) && w < |ws| && ws[w].Working?
    ensures ws[w].task < popped && ws[w].task < |echo| && |echo[ws[w].task]| < n
    ensures HeldOk(ws[w := AtPost], popped, echo[ws[w].task := h], n)
  {
    assert Held(ws[w]) == 1;
  }

  lemma WorkCounts(s: Pool, w: nat, h: seq<int>, posted: nat, waited: nat)
    requires Active(s, posted, waited) && w < |s.workers| && s.workers[w].Working?
    requires s.workers[w].task < s.channels - |s.tasks| && s.workers[w].task < |s.echo|
    requires |s.echo[s.workers[w].task]| < |s.inputs| == |h|
    requires HeldOk(s.workers[w := AtPost], s.channels - |s.tasks|, s.echo[s.workers[w].task := h], |s.inputs|)
    ensures var e := s.echo[s.workers[w].task := h];
      Active(s.(workers := s.workers[w := AtPost], echo := e, out := e), posted, waited)
  {
    hide HeldOk, Total, Range;
    Moved(s, w, AtPost);
    TotalUpdate(s.echo, s.workers[w].task, h, DoneAt(|s.inputs|));
  }

  lemma WorkDone(s: Pool, w: nat, posted: nat, waited: nat)
    requires Shape(s) && Active(s, posted, waited) && w < |s.workers| && s.workers[w].Working?
    ensures !WorkerStep(s, w).workers[w].Crashed?
    ensures Shape(WorkerStep(s, w)) && Active(WorkerStep(s, w), posted, waited)
  {
    hide HeldOk, MutexOk, Alive, NoneDone, Total, Range;
    var t := s.workers[w].task;
    HeldAfterWork(s.workers, w, s.channels - |s.tasks|, s.echo, |s.inputs|, if t < |s.echo| then s.echo[t] + [s.mic[t]] else []);
    WorkData(s, t);
    WorkCounts(s, w, s.echo[t] + [s.mic[t]], posted, waited);
  }

  lemma MutexMoves(s: Pool, w: nat)
    requires MutexOk(s.mutex, s.workers) && Alive(s.workers) && WorkerEnabled(s, w) && !s.exitFlag
    requires !s.workers[w].InCritical? && !s.workers[w].Working?
    ensures MutexOk(WorkerStep(s, w).mutex, WorkerStep(s, w).workers) && Alive(WorkerStep(s, w).workers)
  {
  }

  lemma HeldMoves(s: Pool, w: nat, popped: int, n: nat)
    requires HeldOk(s.workers, popped, s.echo, n) && WorkerEnabled(s, w)
    requires !s.workers[w].InCritical? && !s.workers[w].Working?
    ensures HeldOk(WorkerStep(s, w).workers, popped, s.echo, n)
  {
    var ws := WorkerStep(s, w).workers;
    assert Held(ws[w]) == 1 ==> Held(s.workers[w]) == 1 && ws[w].task == s.workers[w].task;
  }

  lemma TokenMoves(s: Pool, w: nat, posted: nat, waited: nat)
    requires Active(s, posted, waited) && WorkerEnabled(s, w)
    requires !s.workers[w].InCritical? && !s.workers[w].Working?
    ensures Active(WorkerStep(s, w), posted, waited)
  {
    hide HeldOk, NoneDone, MutexOk, Alive, Total;
    Moved(s, w, WorkerStep(s, w).workers[w]);
    HeldMoves(s, w, s.channels - |s.tasks|, |s.inputs|);
    MutexMoves(s, w);
  }

  lemma WorkerPreservesActive(s: Pool, w: nat, posted: nat, waited: nat)
    requires Shape(s) && Active(s, posted, waited) && WorkerEnabled(s, w)
    ensures Shape(WorkerStep(s, w)) && Active(WorkerStep(s, w), posted, waited)
  {
    assert |s.echo| == s.channels;
    hide DataOk, Active;
    match s.workers[w]
    case InCritical => PopFinds(s, w, posted, waited);
    case Working(t) => WorkDone(s, w, posted, waited);
    case _ => TokenMoves(s, w, posted, waited);
  }

  lemma LeavingMoves(s: Pool, w: nat, posted: nat)
    requires ShuttingDown(s, posted) && WorkerEnabled(s, w)
    ensures ShuttingDown(WorkerStep(s, w), posted)
  {
    Moved(s, w, WorkerStep(s, w).workers[w]);
  }

  /** A worker's step leaves everything of the main thread alone. */
  lemma WorkerFrame(s: Pool, w: nat)
    requires WorkerEnabled(s, w)
    ensures var s' := WorkerStep(s, w);
      && s'.main == s.main && s'.channels == s.channels && |s'.workers| == |s.workers|
      && (!s.workers[w].Working? ==> s'.echo == s.echo && s'.out == s.out)
      && s'.mic == s.mic && s'.inputs == s.inputs
      && forall v :: 0 <= v < |s.workers| && s.workers[v].Exited? ==> s'.workers[v].Exited?
  {
  }

  lemma WorkerPreserves(s: Pool, w: nat)
    requires Inv(s) && WorkerEnabled(s, w)
    ensures Inv(WorkerStep(s, w))
  {
    WorkerFrame(s, w);
    match s.main
    case Posting(k) =>
      hide Active, Shape; WorkerPreservesActive(s, w, k, 0); hide WorkerStep;
    case Waiting(k) =>
      hide Active, Shape; WorkerPreservesActive(s, w, s.channels, k); hide WorkerStep;
    case Copying =>
      hide Active, Shape; WorkerPreservesActive(s, w, s.channels, s.channels); hide WorkerStep;
    case ExitPosting(k) =>
      LeavingMoves(s, w, k); hide DataOk, WorkerStep, AllLeaving;
    case Joining(_) =>
      LeavingMoves(s, w, |s.workers|); hide DataOk, WorkerStep, AllLeaving;
    case Done =>
      LeavingMoves(s, w, |s.workers|); hide DataOk, WorkerStep, AllLeaving;
    case _ =>
  }

  lemma InitInv(channels: nat, threads: nat)
    ensures Inv(Init(channels, threads))
  {
  }

  lemma DoPreserves(s: Pool, a: Action)
    requires Inv(s) && Enabled(s, a)
    ensures Inv(Do(s, a)) && Do(s, a).channels == s.channels && |Do(s, a).workers| == |s.workers|
  {
    hide Inv;
    match a
    case MainAct(c) => MainPreserves(s, c);
    case WorkerAct(w) => WorkerPreserves(s, w);
  }

  lemma {:induction false} RunInv(run: seq<Pool>, acts: seq<Action>, channels: nat, threads: nat, i: nat)
    requires IsRun(run, acts, channels, threads) && i < |run|
    ensures Inv(run[i]) && run[i].channels == channels && |run[i].workers| == threads
  {
    hide Inv, Do;
    if i == 0 {
      InitInv(channels, threads);
    } else {
      RunInv(run, acts, channels, threads, i - 1);
      DoPreserves(run[i - 1], acts[i - 1]);
    }
  }

  // ---------------------------------------------------------------- main theorems

  /** Safety of one state, in the vocabulary of the source. */
  ghost predicate Safe(s: Pool) {
    NoCrash(s) && Exclusive(s) && CopyIsLate(s) && ExactlyOnce(s) && CleanExit(s)
  }

  /** The pop never meets an empty queue, and no task names a channel that does not exist. */
  ghost predicate NoCrash(s: Pool) {
    && (forall w :: 0 <= w < |s.workers| ==> !s.workers[w].Crashed?)
    && (forall w :: 0 <= w < |s.workers| && s.workers[w].InCritical? ==> s.tasks != [])
  }

  /** The mutex excludes, nobody is near the queue during the unlocked push, and no two workers
      hold the same channel. */
  ghost predicate Exclusive(s: Pool) {
    && (forall v, w :: 0 <= v < w < |s.workers| ==>
          !((s.workers[v].InCritical? || s.workers[v].Popped?) && (s.workers[w].InCritical? || s.workers[w].Popped?)))
    && (s.main.Pushing? ==> forall w :: 0 <= w < |s.workers| ==> s.workers[w].AtWait?)
    && (forall v, w :: 0 <= v < w < |s.workers| && Held(s.workers[v]) == 1 && Held(s.workers[w]) == 1 ==>
          s.workers[v].task != s.workers[w].task)
  }

  /** The output is read only after every channel is done, while no worker is running. */
  ghost predicate CopyIsLate(s: Pool) {
    s.main.Copying? ==>
      && AllDone(s.echo, |s.inputs|) && s.tasks == [] && s.stop == 0 && s.start == 0
      && forall w :: 0 <= w < |s.workers| ==> s.workers[w].AtWait?
  }

  /** Between calls each channel has been processed exactly once per call, in call order, with its
      own frames, and the caller got the result: what a sequential loop over the channels would do. */
  ghost predicate ExactlyOnce(s: Pool) {
    s.main.Idle? ==>
      && (forall i :: 0 <= i < |s.inputs| ==> |s.inputs[i]| == s.channels)
      && |s.echo| == s.channels
      && (forall c :: 0 <= c < s.channels ==> s.echo[c] == Column(s.inputs, c))
      && (s.inputs != [] ==> s.delivered == s.echo)
  }

  /** While shutting down nobody takes a task; at the end each thread has used one exit token. */
  ghost predicate CleanExit(s: Pool) {
    && (s.exitFlag ==> forall w :: 0 <= w < |s.workers| ==>
          Held(s.workers[w]) == 0 && !s.workers[w].AtLock? && !s.workers[w].InCritical?)
    && (s.main.Done? ==> s.start == 0 && s.tasks == [] && forall w :: 0 <= w < |s.workers| ==> s.workers[w].Exited?)
  }

  lemma ActiveIsSafe(s: Pool, posted: nat, waited: nat)
    requires Active(s, posted, waited)
    ensures NoCrash(s)
    ensures !s.main.Pushing? ==> Exclusive(s)
  {
    forall w | 0 <= w < |s.workers| && s.workers[w].InCritical? ensures s.tasks != [] {
      TotalAtLeast(s.workers, w, Pre);
    }
  }

  lemma {:induction false} ExitedCount(ws: seq<Worker>)
    requires Joined(ws, |ws|)
    ensures Total(ws, Leaving) == |ws|
  {
    if ws != [] { ExitedCount(ws[1..]); }
  }

  lemma InvIsSafe(s: Pool)
    requires Inv(s)
    ensures Safe(s)
  {
    match s.main
    case Posting(k) => ActiveIsSafe(s, k, 0); hide DataOk, HeldOk, MutexOk, NoneDone, NoCrash, Exclusive;
    case Waiting(k) => ActiveIsSafe(s, s.channels, k); hide DataOk, HeldOk, MutexOk, NoneDone, NoCrash, Exclusive;
    case Copying =>
      assert |s.echo| == s.channels;
      ActiveIsSafe(s, s.channels, s.channels);
      CallComplete(s);
      hide DataOk, HeldOk, MutexOk, NoneDone, NoCrash, Exclusive;
    case Idle => IdleExact(s); hide DataOk, ExactlyOnce;
    case Done => ExitedCount(s.workers); hide DataOk;
    case _ => hide DataOk;
  }

  lemma IdleExact(s: Pool)
    requires Inv(s) && s.main.Idle?
    ensures ExactlyOnce(s)
  {
    forall c | 0 <= c < s.channels ensures s.echo[c] == Column(s.inputs, c) {
      assert Consumed(s.echo[c], s.inputs, c);
    }
  }

  /** Every state of every interleaving, for any number of channels and threads, is safe. */
  lemma PoolSafe(run: seq<Pool>, acts: seq<Action>, channels: nat, threads: nat, i: nat)
    requires IsRun(run, acts, channels, threads) && i < |run|
    ensures Safe(run[i])
  {
    hide Inv, Safe, Do;
    RunInv(run, acts, channels, threads, i);
    InvIsSafe(run[i]);
  }

  // ---------------------------------------------------------------- progress

  lemma SomeWorkerRuns(s: Pool, w: nat)
    requires MutexOk(s.mutex, s.workers) && Alive(s.workers) && w < |s.workers| && !s.workers[w].AtWait?
    ensures exists a :: Enabled(s, a)
  {
    if s.workers[w].AtLock? && s.mutex.Some? {
      assert Enabled(s, WorkerAct(s.mutex.value));
    } else {
      assert Enabled(s, WorkerAct(w));
    }
  }

  lemma WaitingMoves(s: Pool)
    requires Phase(s) && s.main.Waiting? && |s.workers| > 0
    ensures exists a :: Enabled(s, a)
  {
    hide HeldOk, NoneDone;
    if w :| 0 <= w < |s.workers| && !s.workers[w].AtWait? {
      SomeWorkerRuns(s, w);
    } else if MainEnabled(s, Proceed) {
      assert Enabled(s, MainAct(Proceed));
    } else {
      TotalZero(s.workers, Pre);
      TotalZero(s.workers, Held);
      TotalZero(s.workers, Finished);
      assert Enabled(s, WorkerAct(0));
    }
  }

  lemma JoiningMoves(s: Pool)
    requires Phase(s) && s.main.Joining? && !MainEnabled(s, Proceed)
    ensures exists a :: Enabled(s, a)
  {
    var k := s.main.k;
    if s.workers[k].AtWait? {
      TotalBound(s.workers, Leaving);
      assert Leaving(s.workers[k]) == 0;
    }
    assert Enabled(s, WorkerAct(k));
  }

  /** Whenever the main thread is inside a call, in start-up or in shutdown, some thread can move. */
  lemma NoDeadlock(run: seq<Pool>, acts: seq<Action>, channels: nat, threads: nat, i: nat)
    requires IsRun(run, acts, channels, threads) && i < |run| && threads > 0
    requires !run[i].main.Idle? && !run[i].main.Done?
    ensures exists a :: Enabled(run[i], a)
  {
    var s := run[i];
    RunInv(run, acts, channels, threads, i);
    hide Do, Phase, DataOk;
    if MainEnabled(s, Proceed) {
      assert Enabled(s, MainAct(Proceed));
    } else if s.main.Waiting? {
      WaitingMoves(s);
    } else {
      JoiningMoves(s);
    }
  }

  function Rank(w: Worker): nat {
    match w
    case Woken => 6 case AtLock => 5 case InCritical => 4 case Popped(_) => 3
    case Working(_) => 2 case AtPost => 1 case _ => 0
  }

  /** Upper bound on the number of steps the whole system can still take before the main thread
      is idle or done, whatever the scheduler does. */
  function Remaining(s: Pool): int {
    7 * s.start + Total(s.workers, Rank) + MainRemaining(s)
  }

  function MainRemaining(s: Pool): int {
    match s.main
    case Creating(k) => |s.workers| - k + s.channels + 2
    case Echo(k) => s.channels - k + 1
    case Idle => 0
    case Pushing(k) => 10 * s.channels - k + 4
    case Posting(k) => 9 * s.channels - 8 * k + 3
    case Waiting(k) => s.channels - k + 2
    case Copying => 1
    case ExitPosting(k) => 9 * |s.workers| - 8 * k + 2
    case Joining(k) => |s.workers| - k + 1
    case Done => 0
  }

  /** What the step bound needs to know of the phase. */
  ghost predicate InBounds(s: Pool) {
    match s.main
    case Creating(k) => k <= |s.workers| && forall w :: k <= w < |s.workers| ==> s.workers[w].Unborn?
    case ExitPosting(k) => k <= |s.workers|
    case Joining(k) => k <= |s.workers|
    case Echo(k) => k <= s.channels
    case Pushing(k) => k <= s.channels
    case Posting(k) => k <= s.channels
    case Waiting(k) => k <= s.channels
    case _ => true
  }

  lemma PhaseBounds(s: Pool)
    requires Phase(s)
    ensures InBounds(s)
  {
    hide HeldOk, MutexOk, NoneDone, AllLeaving, Alive;
  }

  lemma RankDrops(s: Pool, w: nat)
    requires WorkerEnabled(s, w)
    ensures var s' := WorkerStep(s, w);
      && s'.workers == s.workers[w := s'.workers[w]]
      && 7 * s'.start + Rank(s'.workers[w]) < 7 * s.start + Rank(s.workers[w])
  {
  }

  lemma WorkerUsesBound(s: Pool, w: nat)
    requires WorkerEnabled(s, w)
    ensures Remaining(WorkerStep(s, w)) < Remaining(s)
  {
    RankDrops(s, w);
    WorkerFrame(s, w);
    hide WorkerStep, Total, Rank;
    TotalUpdate(s.workers, w, WorkerStep(s, w).workers[w], Rank);
  }

  lemma MainUsesBound(s: Pool, c: Command)
    requires InBounds(s) && MainEnabled(s, c) && !s.main.Idle?
    ensures Remaining(MainStep(s, c)) < Remaining(s)
  {
    hide Total;
    if s.main.Creating? && s.main.k < |s.workers| {
      TotalUpdate(s.workers, s.main.k, AtWait, Rank);
    }
  }

  lemma StepUsesBound(s: Pool, a: Action)
    requires InBounds(s) && Enabled(s, a) && !(s.main.Idle? && a.MainAct?)
    ensures Remaining(Do(s, a)) < Remaining(s)
  {
    hide Remaining, MainStep, WorkerStep, MainEnabled, WorkerEnabled, InBounds;
    match a
    case MainAct(c) => MainUsesBound(s, c);
    case WorkerAct(w) => WorkerUsesBound(s, w);
  }

  /** Every step except the caller's own decision to call or to shut down uses up the bound, so
      together with NoDeadlock every call and every shutdown terminates under any schedule. */
  lemma StepsAreBounded(run: seq<Pool>, acts: seq<Action>, channels: nat, threads: nat, i: nat)
    requires IsRun(run, acts, channels, threads) && i < |acts|
    requires !(run[i].main.Idle? && acts[i].MainAct?)
    ensures 0 <= Remaining(run[i + 1]) < Remaining(run[i])
  {
    hide Do, Enabled, Shape, Phase, Total;
    RunInv(run, acts, channels, threads, i);
    RunInv(run, acts, channels, threads, i + 1);
    PhaseBounds(run[i]);
    PhaseBounds(run[i + 1]);
    StepUsesBound(run[i], acts[i]);
  }
}
