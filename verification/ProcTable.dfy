/**
 * The process table (proc.c): what wakeup1, exit, the scan of wait, kill and
 * the slot search of allocproc do to the table while ptable.lock is held.
 * A process is named by its slot.
 */
module ProcTable {

  datatype PState = Unused | Embryo | Sleeping | Runnable | Running | Zombie

  /** The address a process sleeps on: none, a sleep lock, or a process slot. */
  datatype Chan = Null | OfLock(l: nat) | OfProc(p: nat)

  /** A pointer to a process, possibly null. */
  datatype Link = Nobody | Someone(p: nat)

  datatype Proc = Proc(state: PState, chan: Chan, parent: Link, killed: bool, pid: nat)

  function ChanOf(l: Link): Chan {
    if l.Nobody? then Null else OfProc(l.p)
  }

  /** What a wakeup on c does to one entry. */
  function Woke(p: Proc, c: Chan): Proc {
    if p.state == Sleeping && p.chan == c then p.(state := Runnable) else p
  }

  function Woken(t: seq<Proc>, c: Chan): seq<Proc> {
    seq(|t|, q requires 0 <= q < |t| => Woke(t[q], c))
  }

  predicate ZombieChild(t: seq<Proc>, me: nat, q: nat) {
    q < |t| && t[q].parent == Someone(me) && t[q].state == Zombie
  }

  predicate HasZombieChild(t: seq<Proc>, me: nat) {
    exists q | 0 <= q < |t| :: ZombieChild(t, me, q)
  }

  predicate HasChild(t: seq<Proc>, me: nat) {
    exists q | 0 <= q < |t| :: t[q].parent == Someone(me)
  }

  /** One entry after `me` has exited: its parent is awake, its children belong
      to init, which is awake too if one of them is a zombie. */
  function AfterExit(t: seq<Proc>, me: nat, init: nat, q: nat): Proc
    requires me < |t| && q < |t|
  {
    var p := t[q];
    var awake := p.state == Sleeping
      && (p.chan == ChanOf(t[me].parent) || (p.chan == OfProc(init) && HasZombieChild(t, me)));
    Proc(if q == me then Zombie else if awake then Runnable else p.state, p.chan,
         if p.parent == Someone(me) then Someone(init) else p.parent, p.killed, p.pid)
  }

  function Exited(t: seq<Proc>, me: nat, init: nat): seq<Proc>
    requires me < |t|
  {
    seq(|t|, q requires 0 <= q < |t| => AfterExit(t, me, init, q))
  }

  /** An entry that wait has given back. */
  function Reaped(p: Proc): Proc {
    p.(pid := 0, parent := Nobody, killed := false, state := Unused)
  }

  function Slain(p: Proc): Proc {
    p.(killed := true, state := if p.state == Sleeping then Runnable else p.state)
  }

  datatype Scan = Found(c: nat) | Kids | Childless

  class Ptable {
    var procs: seq<Proc>

    method Wakeup1(c: Chan)
      modifies this
      ensures procs == Woken(old(procs), c)
    {
      var p := 0;
      while p < |procs|
        invariant p <= |procs| == |old(procs)|
        invariant forall q :: 0 <= q < |procs| ==> procs[q] == if q < p then Woke(old(procs)[q], c) else old(procs)[q]
      {
        if procs[p].state == Sleeping && procs[p].chan == c {
          procs := procs[p := procs[p].(state := Runnable)];
        }
        p := p + 1;
      }
    }

    /** The part of exit that runs under ptable.lock. */
    method Exit(me: nat, init: nat)
      requires me < |procs| && procs[me].state == Running
      modifies this
      ensures procs == Exited(old(procs), me, init)
    {
      Wakeup1(ChanOf(procs[me].parent));
      var p := 0;
      ghost var t0 := old(procs);
      while p < |procs|
        invariant p <= |procs| == |t0| && procs[me].state == Running
        invariant forall q :: 0 <= q < |procs| ==> procs[q] == Adopting(t0, me, init, p, q)
      {
        Adopt(me, init, p, t0);
        p := p + 1;
      }
      procs := procs[me := procs[me].(state := Zombie)];
      assert forall q :: 0 <= q < |t0| ==> procs[q] == AfterExit(t0, me, init, q) by {
        assert SomeZombie(t0, me, |t0|) == HasZombieChild(t0, me);
      }
    }

    /** One turn of exit's loop over the children. */
    method Adopt(me: nat, init: nat, p: nat, ghost t0: seq<Proc>)
      requires p < |procs| == |t0| && me < |procs| && t0[me].state == Running
      requires forall q :: 0 <= q < |procs| ==> procs[q] == Adopting(t0, me, init, p, q)
      modifies this
      ensures |procs| == |t0|
      ensures forall q :: 0 <= q < |procs| ==> procs[q] == Adopting(t0, me, init, p + 1, q)
    {
      assert procs[p] == Adopting(t0, me, init, p, p);
      if procs[p].parent == Someone(me) {
        procs := procs[p := procs[p].(parent := Someone(init))];
        if procs[p].state == Zombie {
          assert ZombieChild(t0, me, p);
          Wakeup1(OfProc(init));
        }
      }
      assert SomeZombie(t0, me, p + 1) == (SomeZombie(t0, me, p) || ZombieChild(t0, me, p));
    }

    /** The scan of wait: the first zombie child is given back. */
    method Scan(me: nat) returns (r: Scan)
      modifies this
      ensures r.Found? ==> ZombieChild(old(procs), me, r.c) && procs == old(procs)[r.c := Reaped(old(procs)[r.c])]
      ensures r.Found? ==> forall q :: 0 <= q < r.c ==> !ZombieChild(old(procs), me, q)
      ensures r.Found? ==>
            procs[r.c].state == Unused && procs[r.c].parent == Nobody && !procs[r.c].killed && procs[r.c].pid == 0
      ensures !r.Found? ==> procs == old(procs) && !HasZombieChild(procs, me) && (r.Kids? <==> HasChild(procs, me))
    {
      var havekids := false;
      var p := 0;
      while p < |procs|
        invariant p <= |procs| && procs == old(procs)
        invariant forall q :: 0 <= q < p ==> !ZombieChild(procs, me, q)
        invariant havekids <==> exists q | 0 <= q < p :: procs[q].parent == Someone(me)
      {
        if procs[p].parent == Someone(me) {
          havekids := true;
          if procs[p].state == Zombie {
            r := Found(p);
            procs := procs[p := procs[p].(pid := 0)];
            procs := procs[p := procs[p].(parent := Nobody)];
            procs := procs[p := procs[p].(killed := false)];
            procs := procs[p := procs[p].(state := Unused)];
            return;
          }
        }
        p := p + 1;
      }
      r := if havekids then Kids else Childless;
    }

    /** allocproc: the first unused slot becomes an embryo with the next pid; -1 if there is none. */
    method AllocProc(nextpid: nat) returns (c: int, next: nat)
      modifies this
      ensures c == -1 <==> forall q :: 0 <= q < |old(procs)| ==> old(procs)[q].state != Unused
      ensures c == -1 ==> procs == old(procs) && next == nextpid
      ensures c != -1 ==> 0 <= c < |old(procs)| && old(procs)[c].state == Unused && next == nextpid + 1
      ensures c != -1 ==> forall q :: 0 <= q < c ==> old(procs)[q].state != Unused
      ensures c != -1 ==> procs == old(procs)[c := old(procs)[c].(state := Embryo, pid := nextpid)]
    {
      var p := 0;
      while p < |procs|
        invariant p <= |procs| && procs == old(procs)
        invariant forall q :: 0 <= q < p ==> procs[q].state != Unused
      {
        if procs[p].state == Unused {
          procs := procs[p := procs[p].(state := Embryo)];
          procs := procs[p := procs[p].(pid := nextpid)];
          return p, nextpid + 1;
        }
        p := p + 1;
      }
      return -1, nextpid;
    }

    /** kill marks the first entry that carries the pid, and lets it run. */
    method Kill(pid: nat) returns (r: int)
      modifies this
      ensures r == 0 || (r == -1 && procs == old(procs))
      ensures r == 0 <==> exists q | 0 <= q < |old(procs)| :: old(procs)[q].pid == pid
      ensures r == 0 ==> exists q | 0 <= q < |old(procs)| ::
        && old(procs)[q].pid == pid && procs == old(procs)[q := Slain(old(procs)[q])]
        && procs[q].killed && procs[q].state != Sleeping
        && (old(procs)[q].state != Sleeping ==> procs[q].state == old(procs)[q].state)
        && forall j :: 0 <= j < q ==> old(procs)[j].pid != pid
    {
      var p := 0;
      while p < |procs|
        invariant p <= |procs| && procs == old(procs)
        invariant forall j :: 0 <= j < p ==> procs[j].pid != pid
      {
        if procs[p].pid == pid {
          procs := procs[p := procs[p].(killed := true)];
          if procs[p].state == Sleeping {
            procs := procs[p := procs[p].(state := Runnable)];
          }
          assert procs == old(procs)[p := Slain(old(procs)[p])];
          return 0;
        }
        p := p + 1;
      }
      r := -1;
    }
  }

  predicate SomeZombie(t: seq<Proc>, me: nat, n: nat) {
    exists q | 0 <= q < n :: ZombieChild(t, me, q)
  }

  /** An entry during exit's loop, when the first p entries have been looked at. */
  function Adopting(t: seq<Proc>, me: nat, init: nat, p: nat, q: nat): Proc
    requires me < |t| && q < |t|
  {
    var e := Woke(t[q], ChanOf(t[me].parent));
    var f := if q < p && e.parent == Someone(me) then e.(parent := Someone(init)) else e;
    if SomeZombie(t, me, p) then Woke(f, OfProc(init)) else f
  }
}
