/** The host worker pool as interleaved steps of its workers, producers and destructor. A step is what one thread does
    under the mutex, or one notification, or the run of one task. */
module WorkerPool {
  import opened Wrappers

  /** `Ready` is about to take the mutex and test the wait condition; `Blocked` sleeps on `work_available`. */
  datatype Worker = Ready | Blocked | Took(task: nat) | Running(task: nat) | Ending | Exited

  /** A call of `enqueue` with its own task; `Sleeping` is in `wait_for`, `Notifying` has pushed its task. */
  datatype Producer = Calling | Sleeping | Notifying | Returned | Refused

  /** How far the destructor is. */
  datatype Destructor = NotCalled | StopSet | WorkersWoken | Joining | Gone

  /** `accepted`, `started` and `finished` record the history of tasks; producer `p` submits task `p`. */
  datatype State = State(
    capacity: nat, queue: seq<nat>, workers: seq<Worker>, producers: seq<Producer>, active: nat, stopping: bool,
    destructor: Destructor, accepted: seq<nat>, started: seq<nat>, finished: multiset<nat>)

  datatype Step =
    | WorkerStep(w: nat, wake: nat)
    | SpuriousWorker(w: nat)
    | ProducerStep(p: nat, wake: nat)
    | ProducerWakes(p: nat)
    | DestructorStep

  // ---- Counting threads ----

  function IsReady(w: Worker): nat { if w.Ready? then 1 else 0 }
  function IsBlocked(w: Worker): nat { if w.Blocked? then 1 else 0 }
  function IsBusy(w: Worker): nat { if w.Took? || w.Running? || w.Ending? then 1 else 0 }
  function IsNotifying(p: Producer): nat { if p.Notifying? then 1 else 0 }
  function IsSleeping(p: Producer): nat { if p.Sleeping? then 1 else 0 }

  function Sum<T>(s: seq<T>, f: T -> nat): nat {
    if s == [] then 0 else f(s[0]) + Sum(s[1..], f)
  }

  lemma {:induction false} SumUpdate<T>(s: seq<T>, i: nat, x: T, f: T -> nat)
    requires i < |s|
    ensures Sum(s[i := x], f) + f(s[i]) == Sum(s, f) + f(x)
  {
    if i > 0 {
      SumUpdate(s[1..], i - 1, x, f);
      assert s[i := x][1..] == s[1..][i - 1 := x];
    } else {
      assert s[i := x][1..] == s[1..];
    }
  }

  lemma {:induction false} SumPositive<T>(s: seq<T>, i: nat, f: T -> nat)
    requires i < |s|
    ensures Sum(s, f) >= f(s[i])
  {
    if i > 0 { SumPositive(s[1..], i - 1, f); }
  }

  lemma {:induction false} SumWitness<T>(s: seq<T>, f: T -> nat) returns (i: nat)
    requires Sum(s, f) > 0
    ensures i < |s| && f(s[i]) > 0
  {
    if f(s[0]) > 0 { i := 0; } else {
      var j := SumWitness(s[1..], f);
      i := j + 1;
    }
  }

  lemma {:induction false} SumBound<T>(s: seq<T>, f: T -> nat)
    requires forall x :: f(x) <= 1
    ensures Sum(s, f) <= |s|
  {
    if s != [] { SumBound(s[1..], f); }
  }

  lemma {:induction false} SumNone<T>(s: seq<T>, f: T -> nat)
    requires forall i | 0 <= i < |s| :: f(s[i]) == 0
    ensures Sum(s, f) == 0
  {
    if s != [] { SumNone(s[1..], f); }
  }

  /** The tasks that workers have taken and not finished. */
  function Held(ws: seq<Worker>): multiset<nat> {
    if ws == [] then multiset{} else HeldBy(ws[0]) + Held(ws[1..])
  }

  function HeldBy(w: Worker): multiset<nat> {
    if w.Took? || w.Running? then multiset{w.task} else multiset{}
  }

  lemma {:induction false} HeldUpdate(ws: seq<Worker>, i: nat, x: Worker)
    requires i < |ws|
    ensures Held(ws[i := x]) + HeldBy(ws[i]) == Held(ws) + HeldBy(x)
  {
    if i > 0 {
      var rest, first := ws[1..], HeldBy(ws[0]);
      HeldUpdate(rest, i - 1, x);
      assert ws[i := x][1..] == rest[i - 1 := x];
      Regroup(first, Held(rest[i - 1 := x]), HeldBy(ws[i]), Held(rest), HeldBy(x));
    } else {
      assert ws[i := x][1..] == ws[1..];
    }
  }

  lemma Regroup(a: multiset<nat>, b: multiset<nat>, c: multiset<nat>, d: multiset<nat>, e: multiset<nat>)
    requires b + c == d + e
    ensures (a + b) + c == (a + d) + e
  {
    assert (a + b) + c == a + (b + c);
    assert (a + d) + e == a + (d + e);
  }

  // ---- Steps ----

  /** `notify_one` on the workers: `wake` names the sleeper that is woken, if there is one. */
  function NotifyWorker(s: State, wake: nat): Option<State> {
    if Sum(s.workers, IsBlocked) == 0 then Some(s) else
    if wake < |s.workers| && s.workers[wake].Blocked? then Some(s.(workers := s.workers[wake := Ready])) else None
  }

  /** `notify_one` on the producers. */
  function NotifyProducer(s: State, wake: nat): Option<State> {
    if Sum(s.producers, IsSleeping) == 0 then Some(s) else
    if wake < |s.producers| && s.producers[wake].Sleeping? then Some(s.(producers := s.producers[wake := Calling])) else None
  }

  function WakeAll(ws: seq<Worker>): (r: seq<Worker>)
    ensures |r| == |ws|
  {
    seq(|ws|, i requires 0 <= i < |ws| => if ws[i].Blocked? then Ready else ws[i])
  }

  function ReleaseAll(ps: seq<Producer>): (r: seq<Producer>)
    ensures |r| == |ps|
  {
    seq(|ps|, i requires 0 <= i < |ps| => if ps[i].Sleeping? then Calling else ps[i])
  }

  /** `worker_loop`, from one point where the thread can be interrupted to the next. */
  function WorkerNext(s: State, w: nat, wake: nat): Option<State>
    requires w < |s.workers|
  {
    match s.workers[w]
    case Ready =>
      if s.queue != [] then
        Some(s.(queue := s.queue[1..], active := s.active + 1, started := s.started + [s.queue[0]],
                workers := s.workers[w := Took(s.queue[0])]))
      else Some(s.(workers := s.workers[w := if s.stopping then Exited else Blocked]))
    case Took(task) => NotifyProducer(s.(workers := s.workers[w := Running(task)]), wake)
    case Running(task) => Some(s.(workers := s.workers[w := Ending], finished := s.finished + multiset{task}))
    case Ending => if s.active == 0 then None else Some(s.(workers := s.workers[w := Ready], active := s.active - 1))
    case Blocked => None
    case Exited => None
  }

  /** `enqueue`. */
  function ProducerNext(s: State, p: nat, wake: nat): Option<State>
    requires p < |s.producers|
  {
    match s.producers[p]
    case Calling =>
      if s.stopping then Some(s.(producers := s.producers[p := Refused])) else
      if |s.queue| < s.capacity then
        Some(s.(queue := s.queue + [p], accepted := s.accepted + [p], producers := s.producers[p := Notifying]))
      else Some(s.(producers := s.producers[p := Sleeping]))
    case Notifying => NotifyWorker(s.(producers := s.producers[p := Returned]), wake)
    case Sleeping => None
    case Returned => None
    case Refused => None
  }

  /** `~Impl`; `join` waits for a worker to exit. */
  function DestructorNext(s: State): Option<State> {
    match s.destructor
    case NotCalled => Some(s.(stopping := true, destructor := StopSet))
    case StopSet => Some(s.(workers := WakeAll(s.workers), destructor := WorkersWoken))
    case WorkersWoken =>
      Some(s.(producers := ReleaseAll(s.producers), destructor := Joining))
    case Joining =>
      if forall i | 0 <= i < |s.workers| :: s.workers[i].Exited? then Some(s.(destructor := Gone)) else None
    case Gone => None
  }

  function Next(s: State, step: Step): Option<State> {
    match step
    case WorkerStep(w, wake) => if w < |s.workers| then WorkerNext(s, w, wake) else None
    case SpuriousWorker(w) =>
      if w < |s.workers| && s.workers[w].Blocked? then Some(s.(workers := s.workers[w := Ready])) else None
    case ProducerStep(p, wake) => if p < |s.producers| then ProducerNext(s, p, wake) else None
    case ProducerWakes(p) =>
      if p < |s.producers| && s.producers[p].Sleeping? then Some(s.(producers := s.producers[p := Calling])) else None
    case DestructorStep => DestructorNext(s)
  }

  function Initial(threads: nat, capacity: nat, calls: nat): State {
    State(capacity, [], seq(threads, i => Ready), seq(calls, i => Calling), 0, false, NotCalled, [], [], multiset{})
  }

  // ---- The invariant ----

  /** Tasks start in the order they were accepted, and a started task is held by a worker until it has run. */
  ghost predicate TasksOk(s: State) {
    s.accepted == s.started + s.queue && multiset(s.started) == s.finished + Held(s.workers)
  }

  /** A task is accepted, once, exactly when its call has pushed it, and only a stopping pool refuses a call. */
  ghost predicate CallsOk(accepted: seq<nat>, ps: seq<Producer>, stopping: bool) {
    && (forall p | p in accepted :: p < |ps|)
    && (forall i, j | 0 <= i < j < |accepted| :: accepted[i] != accepted[j])
    && (forall p | 0 <= p < |ps| :: p in accepted <==> ps[p].Notifying? || ps[p].Returned?)
    && (forall p | 0 <= p < |ps| && ps[p].Refused? :: stopping)
  }

  /** While a worker sleeps, every queued task has an awake worker or a notification on its way. */
  ghost predicate WakeupsOk(s: State) {
    Sum(s.workers, IsBlocked) > 0 ==> |s.queue| <= Sum(s.workers, IsReady) + Sum(s.producers, IsNotifying)
  }

  ghost predicate StopOk(s: State) {
    && (s.stopping <==> !s.destructor.NotCalled?)
    && (s.destructor.WorkersWoken? || s.destructor.Joining? || s.destructor.Gone? ==> Sum(s.workers, IsBlocked) == 0)
    && (forall i | 0 <= i < |s.workers| && s.workers[i].Exited? :: s.stopping && s.queue == [])
    && (s.destructor.Gone? ==> forall i | 0 <= i < |s.workers| :: s.workers[i].Exited?)
  }

  ghost predicate Inv(s: State) {
    && |s.queue| <= s.capacity && s.active == Sum(s.workers, IsBusy)
    && TasksOk(s) && CallsOk(s.accepted, s.producers, s.stopping) && WakeupsOk(s) && StopOk(s)
  }

  // ---- Every step keeps it ----

  /** A worker that moves while holding nothing, without taking a task. */
  lemma FreeMove(s: State, w: nat, x: Worker)
    requires Inv(s) && w < |s.workers| && HeldBy(s.workers[w]) == HeldBy(x) && !x.Exited? && !s.workers[w].Exited?
    requires IsBusy(s.workers[w]) == IsBusy(x) && !x.Blocked?
    requires s.workers[w].Ready? ==> x.Ready?
    ensures Inv(s.(workers := s.workers[w := x]))
  {
    CountsMove(s.workers, w, x);
    var t := s.(workers := s.workers[w := x]);
    assert t.finished + Held(t.workers) == s.finished + Held(s.workers) by { SameHeld(s.workers, w, x); }
  }

  lemma SameHeld(ws: seq<Worker>, w: nat, x: Worker)
    requires w < |ws| && HeldBy(ws[w]) == HeldBy(x)
    ensures Held(ws[w := x]) == Held(ws)
  {
    HeldUpdate(ws, w, x);
    Cancel(Held(ws[w := x]), Held(ws), HeldBy(x));
  }

  lemma Cancel(a: multiset<nat>, b: multiset<nat>, c: multiset<nat>)
    requires a + c == b + c
    ensures a == b
  {
    forall n ensures a[n] == b[n] { assert (a + c)[n] == (b + c)[n]; }
  }

  lemma TakeHeld(ws: seq<Worker>, w: nat, task: nat, started: seq<nat>, finished: multiset<nat>)
    requires w < |ws| && ws[w].Ready? && multiset(started) == finished + Held(ws)
    ensures multiset(started + [task]) == finished + Held(ws[w := Took(task)])
  {
    HeldUpdate(ws, w, Took(task));
    var now := Held(ws[w := Took(task)]);
    assert now == now + HeldBy(ws[w]);
    assert finished + now == (finished + Held(ws)) + multiset{task};
  }

  lemma FinishHeld(ws: seq<Worker>, w: nat, finished: multiset<nat>)
    requires w < |ws| && ws[w].Running?
    ensures (finished + multiset{ws[w].task}) + Held(ws[w := Ending]) == finished + Held(ws)
  {
    HeldUpdate(ws, w, Ending);
    var now := Held(ws[w := Ending]);
    assert Held(ws) == Held(ws) + HeldBy(Ending);
    assert (finished + multiset{ws[w].task}) + now == finished + (now + multiset{ws[w].task});
  }

  lemma CountsMove(ws: seq<Worker>, w: nat, x: Worker)
    requires w < |ws|
    ensures Sum(ws[w := x], IsReady) + IsReady(ws[w]) == Sum(ws, IsReady) + IsReady(x)
    ensures Sum(ws[w := x], IsBlocked) + IsBlocked(ws[w]) == Sum(ws, IsBlocked) + IsBlocked(x)
    ensures Sum(ws[w := x], IsBusy) + IsBusy(ws[w]) == Sum(ws, IsBusy) + IsBusy(x)
  {
    SumUpdate(ws, w, x, IsReady);
    SumUpdate(ws, w, x, IsBlocked);
    SumUpdate(ws, w, x, IsBusy);
  }

  lemma TakeTasks(s: State, w: nat)
    requires TasksOk(s) && w < |s.workers| && s.workers[w].Ready? && s.queue != []
    ensures TasksOk(WorkerNext(s, w, 0).value)
  {
    var t := WorkerNext(s, w, 0).value;
    TakeHeld(s.workers, w, s.queue[0], s.started, s.finished);
    assert s.queue == [s.queue[0]] + s.queue[1..];
    assert s.started + ([s.queue[0]] + s.queue[1..]) == t.started + t.queue;
  }

  lemma TakeKeeps(s: State, w: nat)
    requires Inv(s) && w < |s.workers| && s.workers[w].Ready? && s.queue != []
    ensures Inv(WorkerNext(s, w, 0).value)
  {
    CountsMove(s.workers, w, Took(s.queue[0]));
    TakeTasks(s, w);
  }

  lemma RestKeeps(s: State, w: nat)
    requires Inv(s) && w < |s.workers| && s.workers[w].Ready? && s.queue == []
    ensures Inv(WorkerNext(s, w, 0).value)
  {
    var x := if s.stopping then Exited else Blocked;
    CountsMove(s.workers, w, x);
    SameHeld(s.workers, w, x);
  }

  lemma FinishKeeps(s: State, w: nat)
    requires Inv(s) && w < |s.workers| && s.workers[w].Running?
    ensures Inv(WorkerNext(s, w, 0).value)
  {
    CountsMove(s.workers, w, Ending);
    FinishHeld(s.workers, w, s.finished);
  }

  /** A worker that has run its task finds `active` positive. */
  lemma EndKeeps(s: State, w: nat)
    requires Inv(s) && w < |s.workers| && s.workers[w].Ending?
    ensures s.active > 0 && WorkerNext(s, w, 0).Some? && Inv(WorkerNext(s, w, 0).value)
  {
    SumPositive(s.workers, w, IsBusy);
    CountsMove(s.workers, w, Ready);
    SameHeld(s.workers, w, Ready);
  }

  lemma CallMoves(accepted: seq<nat>, ps: seq<Producer>, stopping: bool, p: nat, x: Producer)
    requires CallsOk(accepted, ps, stopping) && p < |ps| && !ps[p].Notifying? && !ps[p].Returned?
    requires !x.Notifying? && !x.Returned? && (x.Refused? ==> stopping)
    ensures CallsOk(accepted, ps[p := x], stopping)
  {
  }

  lemma ProducerMoves(s: State, p: nat, x: Producer)
    requires Inv(s) && p < |s.producers| && !s.producers[p].Notifying? && !s.producers[p].Returned?
    requires !x.Notifying? && !x.Returned? && (x.Refused? ==> s.stopping)
    ensures Inv(s.(producers := s.producers[p := x]))
  {
    CallMoves(s.accepted, s.producers, s.stopping, p, x);
    SumUpdate(s.producers, p, x, IsNotifying);
  }

  lemma PushKeeps(s: State, p: nat)
    requires Inv(s) && p < |s.producers| && s.producers[p].Calling? && !s.stopping && |s.queue| < s.capacity
    ensures Inv(ProducerNext(s, p, 0).value)
  {
    var t := ProducerNext(s, p, 0).value;
    SumUpdate(s.producers, p, Notifying, IsNotifying);
    assert p !in s.accepted;
    assert t.started + t.queue == (s.started + s.queue) + [p];
  }

  /** A notification that finds no sleeper is not needed. */
  lemma NotifyNobody(s: State, p: nat)
    requires Inv(s) && p < |s.producers| && s.producers[p].Notifying? && Sum(s.workers, IsBlocked) == 0
    ensures Inv(s.(producers := s.producers[p := Returned]))
  {
  }

  /** A notification that finds a sleeper replaces itself by an awake worker. */
  lemma NotifyWakes(s: State, p: nat, wake: nat)
    requires Inv(s) && p < |s.producers| && s.producers[p].Notifying? && wake < |s.workers| && s.workers[wake].Blocked?
    ensures Inv(s.(producers := s.producers[p := Returned], workers := s.workers[wake := Ready]))
  {
    SumUpdate(s.producers, p, Returned, IsNotifying);
    CountsMove(s.workers, wake, Ready);
    SameHeld(s.workers, wake, Ready);
    SumPositive(s.workers, wake, IsBlocked);
    var t := s.(producers := s.producers[p := Returned], workers := s.workers[wake := Ready]);
    assert StopOk(t);
  }

  lemma NotifyKeeps(s: State, p: nat, wake: nat)
    requires Inv(s) && p < |s.producers| && s.producers[p].Notifying? && ProducerNext(s, p, wake).Some?
    ensures Inv(ProducerNext(s, p, wake).value)
  {
    if Sum(s.workers, IsBlocked) > 0 { NotifyWakes(s, p, wake); } else { NotifyNobody(s, p); }
  }

  lemma {:induction false} WakeAllCounts(ws: seq<Worker>)
    ensures Sum(WakeAll(ws), IsBlocked) == 0 && Sum(WakeAll(ws), IsBusy) == Sum(ws, IsBusy) && Held(WakeAll(ws)) == Held(ws)
  {
    if ws != [] {
      WakeAllCounts(ws[1..]);
      assert WakeAll(ws)[1..] == WakeAll(ws[1..]);
    }
  }

  lemma NotifyProducerKeeps(s: State, wake: nat)
    requires Inv(s) && NotifyProducer(s, wake).Some?
    ensures Inv(NotifyProducer(s, wake).value)
  {
    if Sum(s.producers, IsSleeping) > 0 && wake < |s.producers| && s.producers[wake].Sleeping? { ProducerMoves(s, wake, Calling); }
  }

  lemma WorkerKeeps(s: State, w: nat, wake: nat)
    requires Inv(s) && w < |s.workers| && WorkerNext(s, w, wake).Some?
    ensures Inv(WorkerNext(s, w, wake).value)
  {
    match s.workers[w]
    case Ready => if s.queue != [] { TakeKeeps(s, w); } else { RestKeeps(s, w); }
    case Took(task) =>
      FreeMove(s, w, Running(task));
      NotifyProducerKeeps(s.(workers := s.workers[w := Running(task)]), wake);
    case Running(_) => FinishKeeps(s, w);
    case Ending => EndKeeps(s, w);
    case _ =>
  }

  lemma ProducerKeeps(s: State, p: nat, wake: nat)
    requires Inv(s) && p < |s.producers| && ProducerNext(s, p, wake).Some?
    ensures Inv(ProducerNext(s, p, wake).value)
  {
    match s.producers[p]
    case Calling =>
      if s.stopping { ProducerMoves(s, p, Refused); }
      else if |s.queue| < s.capacity { PushKeeps(s, p); }
      else { ProducerMoves(s, p, Sleeping); }
    case Notifying => NotifyKeeps(s, p, wake);
    case _ =>
  }

  lemma WakeAllKeeps(s: State)
    requires Inv(s) && s.destructor.StopSet?
    ensures Inv(s.(workers := WakeAll(s.workers), destructor := WorkersWoken))
  {
    WakeAllCounts(s.workers);
    assert forall i | 0 <= i < |s.workers| && WakeAll(s.workers)[i].Exited? :: s.workers[i].Exited?;
  }

  lemma ReleaseAllKeeps(s: State)
    requires Inv(s) && s.destructor.WorkersWoken?
    ensures Inv(s.(producers := ReleaseAll(s.producers), destructor := Joining))
  {
    var t := s.(producers := ReleaseAll(s.producers), destructor := Joining);
    assert forall p | 0 <= p < |s.producers| && !s.producers[p].Sleeping? :: t.producers[p] == s.producers[p];
  }

  lemma DestructorKeeps(s: State)
    requires Inv(s) && DestructorNext(s).Some?
    ensures Inv(DestructorNext(s).value)
  {
    match s.destructor
    case StopSet => WakeAllKeeps(s);
    case WorkersWoken => ReleaseAllKeeps(s);
    case _ =>
  }

  lemma StepKeeps(s: State, step: Step)
    requires Inv(s) && Next(s, step).Some?
    ensures Inv(Next(s, step).value)
  {
    match step
    case WorkerStep(w, wake) => WorkerKeeps(s, w, wake);
    case SpuriousWorker(w) => FreeMove(s, w, Ready);
    case ProducerStep(p, wake) => ProducerKeeps(s, p, wake);
    case ProducerWakes(p) => ProducerMoves(s, p, Calling);
    case DestructorStep => DestructorKeeps(s);
  }

  // ---- Runs ----

  /** The state after a run; `None` if a step was not possible. */
  function Run(s: State, steps: seq<Step>): Option<State>
    decreases |steps|
  {
    if steps == [] then Some(s) else
    var t := Next(s, steps[0]);
    if t.None? then None else Run(t.value, steps[1..])
  }

  lemma {:induction false} RunKeeps(s: State, steps: seq<Step>)
    requires Inv(s) && Run(s, steps).Some?
    ensures Inv(Run(s, steps).value)
    decreases |steps|
  {
    if steps != [] {
      StepKeeps(s, steps[0]);
      RunKeeps(Next(s, steps[0]).value, steps[1..]);
    }
  }

  lemma {:induction false} HeldNone(ws: seq<Worker>)
    requires forall i | 0 <= i < |ws| :: HeldBy(ws[i]) == multiset{}
    ensures Held(ws) == multiset{}
  {
    if ws != [] { HeldNone(ws[1..]); }
  }

  lemma InitialInv(threads: nat, capacity: nat, calls: nat)
    ensures Inv(Initial(threads, capacity, calls))
  {
    var s := Initial(threads, capacity, calls);
    SumNone(s.workers, IsBlocked);
    SumNone(s.workers, IsBusy);
    HeldNone(s.workers);
  }

  /** In every reachable state the queue and the active workers are bounded, and tasks have started in the order of their
      acceptance, each at most once. */
  lemma Reachable(threads: nat, capacity: nat, calls: nat, steps: seq<Step>)
    requires Run(Initial(threads, capacity, calls), steps).Some?
    ensures var s := Run(Initial(threads, capacity, calls), steps).value;
            && Inv(s) && |s.queue| <= s.capacity && s.active <= |s.workers|
            && s.started <= s.accepted && s.queue == s.accepted[|s.started|..]
            && (forall p | 0 <= p < |s.producers| :: p in s.accepted <==> s.producers[p].Notifying? || s.producers[p].Returned?)
            && (forall p | 0 <= p < |s.producers| && s.producers[p].Refused? :: s.stopping)
            && forall i, j | 0 <= i < j < |s.started| :: s.started[i] != s.started[j]
  {
    InitialInv(threads, capacity, calls);
    RunKeeps(Initial(threads, capacity, calls), steps);
    var s := Run(Initial(threads, capacity, calls), steps).value;
    SumBound(s.workers, IsBusy);
  }

  /** No wakeup is lost: with work queued and every idle worker asleep, a notification is still to come. */
  lemma NoLostWakeup(s: State)
    requires Inv(s) && s.queue != [] && Sum(s.workers, IsReady) == 0 && Sum(s.workers, IsBlocked) > 0
    ensures exists p :: 0 <= p < |s.producers| && s.producers[p].Notifying?
  {
    var p := SumWitness(s.producers, IsNotifying);
  }

  /** When the destructor has returned every accepted task has run, exactly once. */
  lemma DestructionDrains(s: State)
    requires Inv(s) && s.destructor.Gone? && s.workers != []
    ensures s.queue == [] && s.started == s.accepted && s.finished == multiset(s.accepted) && s.active == 0
    ensures forall p | p in s.accepted :: s.finished[p] == 1
  {
    assert s.workers[0].Exited?;
    HeldNone(s.workers);
    SumNone(s.workers, IsBusy);
    assert s.started + [] == s.started;
    forall p | p in s.accepted ensures s.finished[p] == 1 { OnceInSeq(s.accepted, p); }
  }

  lemma {:induction false} OnceInSeq(q: seq<nat>, p: nat)
    requires p in q && forall i, j | 0 <= i < j < |q| :: q[i] != q[j]
    ensures multiset(q)[p] == 1
  {
    assert q == [q[0]] + q[1..];
    if q[0] == p {
      assert p !in q[1..];
    } else {
      OnceInSeq(q[1..], p);
    }
  }

  // ---- Shutdown ends ----

  function WorkerLoad(w: Worker): nat {
    match w
    case Took(_) => 4
    case Running(_) => 3
    case Ending => 2
    case Blocked => 2
    case Ready => 1
    case Exited => 0
  }

  function ProducerLoad(p: Producer): nat {
    match p
    case Sleeping => 2
    case Calling => 1
    case Notifying => 1
    case Returned => 0
    case Refused => 0
  }

  function DestructorLoad(d: Destructor): nat {
    match d
    case NotCalled => 4
    case StopSet => 3
    case WorkersWoken => 2
    case Joining => 1
    case Gone => 0
  }

  /** A bound on the number of steps left once the pool is stopping. */
  function Load(s: State): nat {
    4 * |s.queue| + Sum(s.workers, WorkerLoad) + Sum(s.producers, ProducerLoad) + DestructorLoad(s.destructor)
  }

  lemma {:induction false} WakeAllLoad(ws: seq<Worker>)
    ensures Sum(WakeAll(ws), WorkerLoad) <= Sum(ws, WorkerLoad)
  {
    if ws != [] {
      WakeAllLoad(ws[1..]);
      assert WakeAll(ws)[1..] == WakeAll(ws[1..]);
    }
  }

  lemma {:induction false} ReleaseAllLoad(ps: seq<Producer>)
    ensures Sum(ReleaseAll(ps), ProducerLoad) <= Sum(ps, ProducerLoad)
  {
    if ps != [] {
      ReleaseAllLoad(ps[1..]);
      assert ReleaseAll(ps)[1..] == ReleaseAll(ps[1..]);
    }
  }

  lemma WorkerLoadDrops(s: State, w: nat, wake: nat)
    requires s.stopping && w < |s.workers| && WorkerNext(s, w, wake).Some?
    ensures Load(WorkerNext(s, w, wake).value) < Load(s)
  {
    var t := WorkerNext(s, w, wake).value;
    SumUpdate(s.workers, w, t.workers[w], WorkerLoad);
    if s.workers[w].Took? && wake < |s.producers| { SumUpdate(s.producers, wake, Calling, ProducerLoad); }
  }

  lemma ProducerLoadDrops(s: State, p: nat, wake: nat)
    requires s.stopping && p < |s.producers| && ProducerNext(s, p, wake).Some?
    ensures Load(ProducerNext(s, p, wake).value) < Load(s)
  {
    var t := ProducerNext(s, p, wake).value;
    SumUpdate(s.producers, p, t.producers[p], ProducerLoad);
    if t.workers != s.workers { SumUpdate(s.workers, wake, Ready, WorkerLoad); }
  }

  /** While the pool is stopping every step, even a spurious wakeup, brings it closer to its end. */
  lemma LoadDrops(s: State, step: Step)
    requires s.stopping && Next(s, step).Some?
    ensures Load(Next(s, step).value) < Load(s) && Next(s, step).value.stopping
  {
    match step
    case WorkerStep(w, wake) => WorkerLoadDrops(s, w, wake);
    case SpuriousWorker(w) => SumUpdate(s.workers, w, Ready, WorkerLoad);
    case ProducerStep(p, wake) => ProducerLoadDrops(s, p, wake);
    case ProducerWakes(p) => SumUpdate(s.producers, p, Calling, ProducerLoad);
    case DestructorStep =>
      WakeAllLoad(s.workers);
      ReleaseAllLoad(s.producers);
  }

  lemma {:induction false} ShutdownBounded(s: State, steps: seq<Step>)
    requires s.stopping && Run(s, steps).Some?
    ensures |steps| <= Load(s)
    decreases |steps|
  {
    if steps != [] {
      LoadDrops(s, steps[0]);
      ShutdownBounded(Next(s, steps[0]).value, steps[1..]);
    }
  }

  /** A producer that sleeps, if there is one. */
  lemma Sleeper(ps: seq<Producer>) returns (p: nat)
    ensures Sum(ps, IsSleeping) > 0 ==> p < |ps| && ps[p].Sleeping?
  {
    p := 0;
    if Sum(ps, IsSleeping) > 0 { p := SumWitness(ps, IsSleeping); }
  }

  /** A stopping pool whose destructor has not returned can always take a step. */
  lemma ShutdownProgress(s: State)
    requires Inv(s) && s.stopping && !s.destructor.Gone?
    ensures exists step :: Next(s, step).Some?
  {
    if s.destructor.Joining? && exists i :: 0 <= i < |s.workers| && !s.workers[i].Exited? {
      var i :| 0 <= i < |s.workers| && !s.workers[i].Exited?;
      SumPositive(s.workers, i, IsBlocked);
      SumPositive(s.workers, i, IsBusy);
      var wake := Sleeper(s.producers);
      assert Next(s, WorkerStep(i, wake)).Some?;
    } else {
      assert Next(s, DestructorStep).Some?;
    }
  }

  /** When nothing can happen any more, every call has returned or was refused. */
  lemma CallsEnded(t: State)
    requires Inv(t) && t.destructor.Gone? && forall step :: Next(t, step).None?
    ensures forall p | 0 <= p < |t.producers| :: t.producers[p].Returned? || t.producers[p].Refused?
  {
    forall p | 0 <= p < |t.producers| ensures t.producers[p].Returned? || t.producers[p].Refused? {
      assert Next(t, ProducerStep(p, 0)).None? && Next(t, ProducerWakes(p)).None?;
    }
  }

  /** The destructor's second notification wakes every sleeping call. */
  lemma ReleasedAll(s: State)
    requires s.destructor.WorkersWoken?
    ensures Next(s, DestructorStep).Some?
    ensures forall p | 0 <= p < |s.producers| :: Next(s, DestructorStep).value.producers[p] ==
              if s.producers[p].Sleeping? then Calling else s.producers[p]
  {
  }

  /** Once stopping, every run is finite, and one that cannot go on has returned from the destructor with every accepted
      task run exactly once and every call returned or refused. */
  lemma ShutdownDrains(threads: nat, capacity: nat, calls: nat, before: seq<Step>, after: seq<Step>)
    requires threads > 0 && Run(Initial(threads, capacity, calls), before).Some?
    requires var s := Run(Initial(threads, capacity, calls), before).value; s.stopping && Run(s, after).Some?
    ensures var s := Run(Initial(threads, capacity, calls), before).value;
            var t := Run(s, after).value;
            && |after| <= Load(s)
            && ((forall step :: Next(t, step).None?) ==>
                  && t.destructor.Gone? && t.queue == [] && t.finished == multiset(t.accepted)
                  && (forall p | p in t.accepted :: t.finished[p] == 1)
                  && forall p | 0 <= p < |t.producers| :: t.producers[p].Returned? || t.producers[p].Refused?)
  {
    InitialInv(threads, capacity, calls);
    RunKeeps(Initial(threads, capacity, calls), before);
    RunWorkers(Initial(threads, capacity, calls), before);
    var s := Run(Initial(threads, capacity, calls), before).value;
    ShutdownBounded(s, after);
    RunKeeps(s, after);
    RunWorkers(s, after);
    var t := Run(s, after).value;
    if forall step :: Next(t, step).None? {
      RunStopping(s, after);
      if !t.destructor.Gone? { ShutdownProgress(t); }
      DestructionDrains(t);
      CallsEnded(t);
    }
  }

  lemma {:induction false} RunWorkers(s: State, steps: seq<Step>)
    requires Run(s, steps).Some?
    ensures var t := Run(s, steps).value;
            |t.workers| == |s.workers| && |t.producers| == |s.producers| && t.capacity == s.capacity
    decreases |steps|
  {
    if steps != [] { RunWorkers(Next(s, steps[0]).value, steps[1..]); }
  }

  lemma {:induction false} RunStopping(s: State, steps: seq<Step>)
    requires Run(s, steps).Some? && s.stopping
    ensures Run(s, steps).value.stopping
    decreases |steps|
  {
    if steps != [] {
      LoadDrops(s, steps[0]);
      RunStopping(Next(s, steps[0]).value, steps[1..]);
    }
  }

  // ---- Calls are served ----

  /** What one attempt of `enqueue` does: refused exactly when the pool is stopping, accepted as the last task exactly
      when it is not and there is room, and otherwise put to sleep. */
  lemma Attempt(s: State, p: nat, wake: nat)
    requires Inv(s) && p < |s.producers| && s.producers[p].Calling?
    ensures Next(s, ProducerStep(p, wake)).Some?
    ensures var t := Next(s, ProducerStep(p, wake)).value;
            && (t.producers[p].Refused? <==> s.stopping)
            && (p in t.accepted <==> !s.stopping && |s.queue| < s.capacity)
            && (if p in t.accepted then t.accepted == s.accepted + [p] && t.queue == s.queue + [p]
                else t.accepted == s.accepted && t.queue == s.queue)
            && (!t.producers[p].Refused? && p !in t.accepted ==> t.producers[p].Sleeping?)
  {
  }

  /** A refused call made its last attempt while the pool was stopping. */
  lemma {:induction false} RefusedWhileStopping(s: State, steps: seq<Step>, p: nat) returns (i: nat)
    requires Run(s, steps).Some? && p < |s.producers| && !s.producers[p].Refused?
    requires var t := Run(s, steps).value; p < |t.producers| && t.producers[p].Refused?
    ensures i < |steps| && steps[i].ProducerStep? && steps[i].p == p && Run(s, steps[..i]).Some?
    ensures var t := Run(s, steps[..i]).value; t.stopping && p < |t.producers| && t.producers[p].Calling?
    decreases |steps|
  {
    var t := Next(s, steps[0]).value;
    SameProducers(s, steps[0]);
    if t.producers[p].Refused? {
      i := 0;
    } else {
      var j := RefusedWhileStopping(t, steps[1..], p);
      i := j + 1;
      assert steps[..i][1..] == steps[1..][..j];
    }
  }

  lemma SameProducers(s: State, step: Step)
    requires Next(s, step).Some?
    ensures |Next(s, step).value.producers| == |s.producers|
    ensures forall p | 0 <= p < |s.producers| && !s.producers[p].Refused? && Next(s, step).value.producers[p].Refused? ::
              step.ProducerStep? && step.p == p && s.stopping && s.producers[p].Calling?
  {
  }

  /** When a worker announces that it has taken a task, one sleeping call is woken if there is any. */
  lemma SpaceAnnounced(s: State, w: nat, wake: nat)
    requires w < |s.workers| && s.workers[w].Took? && Next(s, WorkerStep(w, wake)).Some?
    ensures var before, after := Sum(s.producers, IsSleeping), Sum(Next(s, WorkerStep(w, wake)).value.producers, IsSleeping);
            after == if before == 0 then 0 else before - 1
  {
    if Sum(s.producers, IsSleeping) > 0 { SumUpdate(s.producers, wake, Calling, IsSleeping); }
  }

  /** A step of a worker, or the notification of a call that has pushed its task. */
  ghost predicate Inside(s: State, step: Step) {
    match step
    case WorkerStep(_, _) => true
    case ProducerStep(p, _) => p < |s.producers| && s.producers[p].Notifying?
    case _ => false
  }

  ghost predicate InsideRun(s: State, steps: seq<Step>)
    decreases |steps|
  {
    steps == [] ||
    (Inside(s, steps[0]) && Next(s, steps[0]).Some? && InsideRun(Next(s, steps[0]).value, steps[1..]))
  }

  function WorkerEffort(w: Worker): nat {
    match w
    case Took(_) => 4
    case Running(_) => 3
    case Ending => 2
    case Ready => 1
    case Blocked => 0
    case Exited => 0
  }

  /** A bound on the number of steps the pool can take by itself. */
  function Effort(s: State): nat {
    4 * |s.queue| + Sum(s.workers, WorkerEffort) + 2 * Sum(s.producers, IsNotifying)
  }

  predicate Waiting(p: Producer) { p.Calling? || p.Sleeping? }

  /** What the pool's own steps leave as it is. */
  ghost predicate Alike(s: State, t: State) {
    && t.accepted == s.accepted && t.stopping == s.stopping && t.capacity == s.capacity && |t.workers| == |s.workers|
    && |t.producers| == |s.producers| && forall p | 0 <= p < |s.producers| && Waiting(s.producers[p]) :: Waiting(t.producers[p])
  }

  lemma WorkerEffortDrops(s: State, w: nat, wake: nat)
    requires w < |s.workers| && WorkerNext(s, w, wake).Some?
    ensures Effort(WorkerNext(s, w, wake).value) < Effort(s) && Alike(s, WorkerNext(s, w, wake).value)
  {
    var t := WorkerNext(s, w, wake).value;
    SumUpdate(s.workers, w, t.workers[w], WorkerEffort);
    if s.workers[w].Took? && wake < |s.producers| { SumUpdate(s.producers, wake, Calling, IsNotifying); }
  }

  lemma NotifyEffortDrops(s: State, p: nat, wake: nat)
    requires p < |s.producers| && s.producers[p].Notifying? && ProducerNext(s, p, wake).Some?
    ensures Effort(ProducerNext(s, p, wake).value) < Effort(s) && Alike(s, ProducerNext(s, p, wake).value)
  {
    var t := ProducerNext(s, p, wake).value;
    SumUpdate(s.producers, p, Returned, IsNotifying);
    if t.workers != s.workers { SumUpdate(s.workers, wake, Ready, WorkerEffort); }
  }

  /** The pool cannot go on by itself for ever. */
  lemma EffortDrops(s: State, step: Step)
    requires Inside(s, step) && Next(s, step).Some?
    ensures Effort(Next(s, step).value) < Effort(s) && Alike(s, Next(s, step).value)
  {
    match step
    case WorkerStep(w, wake) => WorkerEffortDrops(s, w, wake);
    case ProducerStep(p, wake) => NotifyEffortDrops(s, p, wake);
  }

  lemma {:induction false} InsideBounded(s: State, steps: seq<Step>)
    requires InsideRun(s, steps)
    ensures Run(s, steps).Some? && Alike(s, Run(s, steps).value)
    ensures |steps| + Effort(Run(s, steps).value) <= Effort(s)
    decreases |steps|
  {
    if steps != [] {
      EffortDrops(s, steps[0]);
      InsideBounded(Next(s, steps[0]).value, steps[1..]);
    }
  }

  lemma {:induction false} Holder(ws: seq<Worker>) returns (w: nat)
    requires Held(ws) != multiset{}
    ensures w < |ws| && (ws[w].Took? || ws[w].Running?)
  {
    if HeldBy(ws[0]) != multiset{} { w := 0; } else {
      var v := Holder(ws[1..]);
      w := v + 1;
    }
  }

  lemma BusyStep(s: State, w: nat) returns (step: Step)
    requires Inv(s) && w < |s.workers| && !s.workers[w].Blocked? && !s.workers[w].Exited?
    ensures Inside(s, step) && Next(s, step).Some?
  {
    var wake := Sleeper(s.producers);
    SumPositive(s.workers, w, IsBusy);
    step := WorkerStep(w, wake);
  }

  /** With a task queued and no worker awake to take it, a notification is on its way and can be given. */
  lemma NotifyStep(s: State) returns (step: Step)
    requires Inv(s) && s.queue != [] && Sum(s.workers, IsReady) == 0 && Sum(s.workers, IsBlocked) > 0
    ensures Inside(s, step) && Next(s, step).Some?
  {
    var p := SumWitness(s.producers, IsNotifying);
    var wake := SumWitness(s.workers, IsBlocked);
    step := ProducerStep(p, wake);
  }

  /** As long as a task is queued or running, the pool can take a step by itself. */
  lemma WorkGoesOn(s: State) returns (step: Step)
    requires Inv(s) && s.workers != [] && (s.queue != [] || Held(s.workers) != multiset{})
    ensures Inside(s, step) && Next(s, step).Some?
  {
    if Held(s.workers) != multiset{} {
      var w := Holder(s.workers);
      step := BusyStep(s, w);
    } else if Sum(s.workers, IsReady) > 0 {
      var w := SumWitness(s.workers, IsReady);
      step := BusyStep(s, w);
    } else if Sum(s.workers, IsBlocked) > 0 {
      step := NotifyStep(s);
    } else {
      SumPositive(s.workers, 0, IsBlocked);
      step := BusyStep(s, 0);
    }
  }

  lemma AllFinished(s: State)
    requires TasksOk(s) && s.queue == [] && Held(s.workers) == multiset{}
    ensures s.finished == multiset(s.accepted)
  {
    assert s.started + [] == s.started;
  }

  /** Left to itself a pool takes a bounded number of steps, and when it can take no more every accepted task has run,
      exactly once. */
  lemma PoolDrains(threads: nat, capacity: nat, calls: nat, before: seq<Step>, after: seq<Step>)
    requires threads > 0 && Run(Initial(threads, capacity, calls), before).Some?
    requires InsideRun(Run(Initial(threads, capacity, calls), before).value, after)
    ensures var s := Run(Initial(threads, capacity, calls), before).value;
            && |after| <= Effort(s) && Run(s, after).Some?
            && var t := Run(s, after).value;
               && t.accepted == s.accepted
               && ((forall step | Inside(t, step) :: Next(t, step).None?) ==>
                     t.queue == [] && forall p | p in t.accepted :: t.finished[p] == 1)
  {
    var first := Initial(threads, capacity, calls);
    InitialInv(threads, capacity, calls);
    RunKeeps(first, before);
    RunWorkers(first, before);
    var s := Run(first, before).value;
    InsideBounded(s, after);
    RunKeeps(s, after);
    var t := Run(s, after).value;
    if forall step | Inside(t, step) :: Next(t, step).None? {
      if t.queue != [] || Held(t.workers) != multiset{} { var step := WorkGoesOn(t); }
      AllFinished(t);
      forall p | p in t.accepted ensures t.finished[p] == 1 { OnceInSeq(t.accepted, p); }
    }
  }

  // ---- Every call can be served ----

  lemma {:induction false} RunAppend(s: State, a: seq<Step>, b: seq<Step>)
    requires Run(s, a).Some?
    ensures Run(s, a + b) == Run(Run(s, a).value, b)
    decreases |a|
  {
    if a == [] {
      assert a + b == b;
    } else {
      RunAppend(Next(s, a[0]).value, a[1..], b);
      assert (a + b)[1..] == a[1..] + b;
    }
  }

  lemma {:induction false} Drain(s: State) returns (steps: seq<Step>)
    requires Inv(s) && s.workers != []
    ensures Run(s, steps).Some? && Alike(s, Run(s, steps).value) && Inv(Run(s, steps).value)
    ensures Run(s, steps).value.queue == [] && Run(s, steps).value.finished == multiset(s.accepted)
    decreases Effort(s)
  {
    if s.queue == [] && Held(s.workers) == multiset{} {
      AllFinished(s);
      steps := [];
    } else {
      var step := WorkGoesOn(s);
      EffortDrops(s, step);
      StepKeeps(s, step);
      var rest := Drain(Next(s, step).value);
      steps := [step] + rest;
      assert steps[1..] == rest;
    }
  }

  /** A waiting call of a pool with room gets its task accepted. */
  lemma {:induction false} Submit(s: State, p: nat) returns (steps: seq<Step>)
    requires Inv(s) && !s.stopping && |s.queue| < s.capacity && p < |s.producers| && Waiting(s.producers[p])
    ensures Run(s, steps).Some? && Inv(Run(s, steps).value) && p in Run(s, steps).value.accepted
    ensures !Run(s, steps).value.stopping && |Run(s, steps).value.workers| == |s.workers|
    decreases s.producers[p].Sleeping?
  {
    var step := if s.producers[p].Sleeping? then ProducerWakes(p) else ProducerStep(p, 0);
    var t, rest := Next(s, step).value, [];
    StepKeeps(s, step);
    if s.producers[p].Sleeping? { rest := Submit(t, p); } else { Attempt(s, p, 0); }
    steps := [step] + rest;
    assert steps[1..] == rest;
    assert Run(s, steps) == Run(t, rest);
  }

  /** From every reachable state of a pool that is not stopping, every call can still be served without stopping the pool:
      some run has its task accepted and executed. */
  lemma CallServed(threads: nat, capacity: nat, calls: nat, before: seq<Step>, p: nat) returns (after: seq<Step>)
    requires threads > 0 && capacity > 0 && Run(Initial(threads, capacity, calls), before).Some?
    requires !Run(Initial(threads, capacity, calls), before).value.stopping && p < calls
    ensures var s := Run(Initial(threads, capacity, calls), before).value;
            && Run(s, after).Some? && !Run(s, after).value.stopping
            && Run(s, after).value.finished[p] == 1
  {
    var first := Initial(threads, capacity, calls);
    InitialInv(threads, capacity, calls);
    RunKeeps(first, before);
    RunWorkers(first, before);
    var s := Run(first, before).value;
    after := Drain(s);
    var t := Run(s, after).value;
    if p !in t.accepted {
      var submit := Submit(t, p);
      RunAppend(s, after, submit);
      after := after + submit;
      t := Run(s, after).value;
      var rest := Drain(t);
      RunAppend(s, after, rest);
      after := after + rest;
      OnceInSeq(t.accepted, p);
    } else {
      OnceInSeq(t.accepted, p);
    }
  }
}
