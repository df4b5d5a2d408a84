/**
 * Sleep locks and the process life cycle as interleaved steps (sleeplock.c,
 * proc.c).  Every processor runs at most one process; a step is one process
 * or one scheduler moving past its next shared access.  ptable.lock and the
 * spin lock inside each sleep lock are explicit, and ptable.lock travels with
 * the processor through sched and scheduler.
 */
module SleepWakeup {
  import opened ProcTable

  /** Where a process stands in the kernel code that is modelled. */
  datatype Pc =
    | User                                                        // elsewhere
    | Acq(l: nat) | Test(l: nat) | Named(l: nat)                  // acquiresleep
    | Rest1(l: nat) | Rest2(l: nat) | Rest3(l: nat) | Rest4(l: nat) | Back(l: nat)   // sleep(lk, &lk->lk)
    | Rel(l: nat) | Clear(l: nat) | Ring1(l: nat) | Ring2(l: nat) | Ring3(l: nat) | Hang(l: nat)  // releasesleep
    | Exit1 | Exit2 | Exit3 | Gone                                // exit
    | Wait1 | Wait2 | Wait3 | Nap1 | Nap2                         // wait, with sleep(curproc, &ptable.lock)
    | Kill1 | Kill2 | Kill3                                       // kill
    | Yield1 | Yield2 | Yield3 | Yield4                           // yield
    | Fork1 | Fork2 | Fork3(c: nat) | Fork4(c: nat) | Fork5(c: nat) | Fork6(c: nat) | Fork7  // fork
    | Start                                                       // forkret

  /** A sleep lock: its spin lock's holder, and the long-term lock it guards. */
  datatype Lk = Lk(spin: Link, locked: bool, pid: nat)

  datatype Cpu = Idle | Sched | Run(p: nat)

  datatype Owner = Free | ByProc(p: nat) | ByCpu(k: nat)

  /** `held[i]` records the sleep locks process i has acquired and not begun to release. */
  datatype State = State(t: seq<Proc>, pc: seq<Pc>, held: seq<set<nat>>, cpu: seq<Cpu>, owner: Owner, lks: seq<Lk>,
                         init: nat, next: nat)

  predicate HasTable(p: Pc) {
    p.Rest2? || p.Rest3? || p.Rest4? || p.Back? || p.Ring2? || p.Ring3? || p.Exit2? || p.Exit3?
    || p.Wait2? || p.Wait3? || p.Nap1? || p.Nap2? || p.Kill2? || p.Kill3?
    || p.Yield2? || p.Yield3? || p.Yield4? || p.Fork2? || p.Fork3? || p.Fork6? || p.Fork7? || p.Start?
  }

  /** Where a process is that has given up its processor. */
  predicate Switched(p: Pc) {
    p.Back? || p.Nap2? || p.Yield4? || p.Start?
  }

  predicate Shape(s: State) {
    && |s.pc| == |s.t| && |s.held| == |s.t| && s.init < |s.t|
    && forall i :: 0 <= i < |s.pc| ==> PcIn(s, s.pc[i])
  }

  predicate PcIn(s: State, p: Pc) {
    match p
    case Acq(l) => l < |s.lks|
    case Test(l) => l < |s.lks|
    case Named(l) => l < |s.lks|
    case Rest1(l) => l < |s.lks|
    case Rest2(l) => l < |s.lks|
    case Rest3(l) => l < |s.lks|
    case Rest4(l) => l < |s.lks|
    case Back(l) => l < |s.lks|
    case Rel(l) => l < |s.lks|
    case Clear(l) => l < |s.lks|
    case Ring1(l) => l < |s.lks|
    case Ring2(l) => l < |s.lks|
    case Ring3(l) => l < |s.lks|
    case Hang(l) => l < |s.lks|
    case Fork3(c) => c < |s.t|
    case Fork4(c) => c < |s.t|
    case Fork5(c) => c < |s.t|
    case Fork6(c) => c < |s.t|
    case _ => true
  }

  // ---------------------------------------------------------------- steps

  function Put(s: State, i: nat, p: Pc): State
    requires i < |s.pc|
  {
    s.(pc := s.pc[i := p])
  }

  /** Process i moves on to p and the table's lock gets the given owner. */
  function Lock(s: State, i: nat, o: Owner, p: Pc): State
    requires i < |s.pc|
  {
    s.(pc := s.pc[i := p], owner := o)
  }

  function SetLk(s: State, i: nat, l: nat, k: Lk, p: Pc): State
    requires i < |s.pc| && l < |s.lks|
  {
    s.(pc := s.pc[i := p], lks := s.lks[l := k])
  }

  function SetProc(s: State, i: nat, c: nat, x: Proc, p: Pc): State
    requires i < |s.pc| && c < |s.t|
  {
    s.(pc := s.pc[i := p], t := s.t[c := x])
  }

  /** sched: the processor goes back to its scheduler and takes the lock along. */
  function Switch(s: State, i: nat, k: nat, p: Pc): State
    requires i < |s.pc| && k < |s.cpu|
  {
    s.(pc := s.pc[i := p], cpu := s.cpu[k := Sched], owner := ByCpu(k))
  }

  /** A process in user space, or in kernel code outside the model, starts one
      of the operations.  A lock is released by the process that holds it, and
      nobody exits holding one; init never exits. */
  ghost predicate Begins(s: State, i: nat, l: nat, s2: State)
    requires Shape(s) && i < |s.pc|
  {
    |s2.pc| == |s.pc| &&
    match s2.pc[i]
    case Acq(m) => m == l < |s.lks| && s2 == Put(s, i, Acq(l))
    case Rel(m) => m == l < |s.lks| && l in s.held[i] && s2 == Put(s, i, Rel(l)).(held := s.held[i := s.held[i] - {l}])
    case Exit1 => i != s.init && s.held[i] == {} && s2 == Put(s, i, Exit1)
    case Wait1 => s2 == Put(s, i, Wait1)
    case Kill1 => s2 == Put(s, i, Kill1)
    case Yield1 => s2 == Put(s, i, Yield1)
    case Fork1 => s2 == Put(s, i, Fork1)
    case _ => false
  }

  ghost predicate Sleeps(s: State, i: nat, k: nat, s2: State)
    requires Shape(s) && i < |s.pc| && k < |s.cpu|
  {
    match s.pc[i]
    case Acq(l) => s.lks[l].spin == Nobody && s2 == SetLk(s, i, l, s.lks[l].(spin := Someone(i)), Test(l))
    case Test(l) =>
      if s.lks[l].locked then s2 == Put(s, i, Rest1(l))
      else s2 == SetLk(s, i, l, s.lks[l].(locked := true, pid := s.t[i].pid), Named(l))
    case Named(l) => s2 == SetLk(s, i, l, s.lks[l].(spin := Nobody), User).(held := s.held[i := s.held[i] + {l}])
    case Rest1(l) => s.owner == Free && s2 == Lock(s, i, ByProc(i), Rest2(l))
    case Rest2(l) => s2 == SetLk(s, i, l, s.lks[l].(spin := Nobody), Rest3(l))
    case Rest3(l) => s2 == SetProc(s, i, i, s.t[i].(chan := OfLock(l), state := Sleeping), Rest4(l))
    case Rest4(l) => s2 == Switch(s, i, k, Back(l))
    case Back(l) => s2 == SetProc(s, i, i, s.t[i].(chan := Null), Acq(l)).(owner := Free)
    case _ => false
  }

  ghost predicate Releases(s: State, i: nat, s2: State)
    requires Shape(s) && i < |s.pc|
  {
    match s.pc[i]
    case Rel(l) => s.lks[l].spin == Nobody && s2 == SetLk(s, i, l, s.lks[l].(spin := Someone(i)), Clear(l))
    case Clear(l) => s2 == SetLk(s, i, l, s.lks[l].(locked := false, pid := 0), Ring1(l))
    case Ring1(l) => s.owner == Free && s2 == Lock(s, i, ByProc(i), Ring2(l))
    case Ring2(l) => s2 == Put(s, i, Ring3(l)).(t := Woken(s.t, OfLock(l)))
    case Ring3(l) => s2 == Lock(s, i, Free, Hang(l))
    case Hang(l) => s2 == SetLk(s, i, l, s.lks[l].(spin := Nobody), User)
    case _ => false
  }

  /** exit and kill; c is the entry that kill hits. */
  ghost predicate Ends(s: State, i: nat, k: nat, c: nat, s2: State)
    requires Shape(s) && i < |s.pc| && k < |s.cpu|
  {
    match s.pc[i]
    case Exit1 => s.owner == Free && s2 == Lock(s, i, ByProc(i), Exit2)
    case Exit2 => s2 == Put(s, i, Exit3).(t := Exited(s.t, i, s.init))
    case Exit3 => s2 == Switch(s, i, k, Gone)
    case Kill1 => s.owner == Free && s2 == Lock(s, i, ByProc(i), Kill2)
    case Kill2 => s2 == Put(s, i, Kill3) || (c < |s.t| && s2 == SetProc(s, i, c, Slain(s.t[c]), Kill3))
    case Kill3 => s2 == Lock(s, i, Free, User)
    case _ => false
  }

  /** wait; c is the zombie child it finds. */
  ghost predicate Waits(s: State, i: nat, k: nat, c: nat, s2: State)
    requires Shape(s) && i < |s.pc| && k < |s.cpu|
  {
    match s.pc[i]
    case Wait1 => s.owner == Free && s2 == Lock(s, i, ByProc(i), Wait2)
    case Wait2 =>
      if HasZombieChild(s.t, i) then ZombieChild(s.t, i, c) && s2 == SetProc(s, i, c, Reaped(s.t[c]), Wait3)
      else if !HasChild(s.t, i) || s.t[i].killed then s2 == Put(s, i, Wait3)
      else s2 == SetProc(s, i, i, s.t[i].(chan := OfProc(i), state := Sleeping), Nap1)
    case Wait3 => s2 == Lock(s, i, Free, User)
    case Nap1 => s2 == Switch(s, i, k, Nap2)
    case Nap2 => s2 == SetProc(s, i, i, s.t[i].(chan := Null), Wait2)
    case _ => false
  }

  /** yield, and the first step of a new process. */
  ghost predicate Pauses(s: State, i: nat, k: nat, s2: State)
    requires Shape(s) && i < |s.pc| && k < |s.cpu|
  {
    match s.pc[i]
    case Yield1 => s.owner == Free && s2 == Lock(s, i, ByProc(i), Yield2)
    case Yield2 => s2 == SetProc(s, i, i, s.t[i].(state := Runnable), Yield3)
    case Yield3 => s2 == Switch(s, i, k, Yield4)
    case Yield4 => s2 == Lock(s, i, Free, User)
    case Start => s2 == Lock(s, i, Free, User)
    case _ => false
  }

  /** fork; c is the slot it finds.  Without the lock, fork either gives the
      slot back, for lack of memory, or makes itself the parent. */
  ghost predicate Forks(s: State, i: nat, c: nat, s2: State)
    requires Shape(s) && i < |s.pc|
  {
    match s.pc[i]
    case Fork1 => s.owner == Free && s2 == Lock(s, i, ByProc(i), Fork2)
    case Fork2 =>
      if exists q | 0 <= q < |s.t| :: s.t[q].state == Unused then
        c < |s.t| && s.t[c].state == Unused
          && s2 == SetProc(s, i, c, s.t[c].(state := Embryo, pid := s.next), Fork3(c)).(next := s.next + 1)
      else s2 == Put(s, i, Fork7)
    case Fork3(q) => s2 == Lock(s, i, Free, Fork4(q))
    case Fork4(q) => s2 == SetProc(s, i, q, s.t[q].(state := Unused), User)
      || s2 == SetProc(s, i, q, s.t[q].(parent := Someone(i)), Fork5(q))
    case Fork5(q) => s.owner == Free && s2 == Lock(s, i, ByProc(i), Fork6(q))
    case Fork6(q) => s2 == s.(pc := s.pc[i := Fork7][q := Start], t := s.t[q := s.t[q].(state := Runnable)])
    case Fork7 => s2 == Lock(s, i, Free, User)
    case _ => false
  }

  /** The scheduler of processor k. */
  ghost predicate Schedules(s: State, k: nat, q: nat, s2: State)
    requires k < |s.cpu|
  {
    || (s.cpu[k] == Idle && s.owner == Free && s2 == s.(cpu := s.cpu[k := Sched], owner := ByCpu(k)))
    || (s.cpu[k] == Sched && s2 == s.(cpu := s.cpu[k := Idle], owner := Free))
    || (s.cpu[k] == Sched && q < |s.t| && s.t[q].state == Runnable
        && s2 == s.(cpu := s.cpu[k := Run(q)], owner := ByProc(q), t := s.t[q := s.t[q].(state := Running)]))
  }

  ghost predicate Next(s: State, s2: State)
    requires Shape(s)
  {
    exists k, c | 0 <= k < |s.cpu| && 0 <= c :: StepOf(s, k, c, s2)
  }

  ghost predicate StepOf(s: State, k: nat, c: nat, s2: State)
    requires Shape(s)
  {
    k < |s.cpu| &&
    if s.cpu[k].Run? then
      var i := s.cpu[k].p;
      i < |s.pc| && ((s.pc[i] == User && Begins(s, i, c, s2)) || Sleeps(s, i, k, s2) || Releases(s, i, s2)
                    || Ends(s, i, k, c, s2) || Waits(s, i, k, c, s2) || Pauses(s, i, k, s2) || Forks(s, i, c, s2))
    else Schedules(s, k, c, s2)
  }

  ghost predicate Starts(s: State) {
    && Shape(s) && s.owner == Free && s.t[s.init].state == Runnable && s.pc[s.init] == Start
    && (forall k :: 0 <= k < |s.cpu| ==> s.cpu[k] == Idle)
    && (forall i :: 0 <= i < |s.t| ==>
         s.held[i] == {} && s.t[i].chan == Null && s.t[i].parent == Nobody && (s.pc[i] == User || s.pc[i] == Start))
    && (forall i :: 0 <= i < |s.t| && i != s.init ==> s.t[i].state == Unused)
    && (forall l :: 0 <= l < |s.lks| ==> s.lks[l] == Lk(Nobody, false, 0))
  }

  /** A run from boot: each state follows from the one before by one step. */
  ghost predicate IsRun(r: seq<State>) {
    |r| > 0 && Starts(r[0]) && forall n :: 0 <= n < |r| - 1 ==> Linked(r, n)
  }

  ghost predicate Linked(r: seq<State>, n: nat)
    requires n < |r| - 1
  {
    Shape(r[n]) && Next(r[n], r[n + 1])
  }
}
