/** The routines of Kernel.Scheduler carry out exactly the steps the run theorems speak of. */
module KernelDrive {
  import opened Queues
  import opened KernelModel
  import opened KernelRun
  import O = KernelOps
  import C = KernelCalls
  import opened Kernel

  /** A step as a caller asks for it: semcreate and create choose their entries themselves, and no
      caller asks to be refused. */
  ghost predicate Asked(k: State, op: Act)
    requires Stable(k)
  {
    match op
    case Semcreate(_, _) => true
    case Create(_, _) => true
    case Refused => false
    case _ => Allowed(k, op)
  }

  /** The step that a call turned out to be: the one asked for, up to the key under which a waiter
      queues and the entry that a new semaphore or process gets. */
  ghost predicate Chosen(k: State, op: Act, a: Act) {
    match op
    case Wait(i, _) => a.Wait? && a.sem == i
    case Semcreate(_, n) =>
      if n < 0 || forall i :: 0 <= i < |k.sems| ==> k.sems[i].used then a == Refused
      else a.Semcreate? && a.n == n
    case Create(_, prio) =>
      if prio < 1 || forall p :: 0 <= p < |k.procs| ==> k.procs[p].state != FREE then a == Refused
      else a.Create? && a.prio == prio
    case _ => a == op
  }

  predicate OnSemaphore(op: Act) {
    op.Wait? || op.Signal? || op.Signaln? || op.Semreset? || op.Semdelete? || op.Semcreate?
  }

  /** One call of a routine of the scheduler is one step of the machine. */
  method Step(s: Scheduler, op: Act) returns (ghost a: Act)
    requires s.Valid() && Stable(s.Snap()) && Asked(s.Snap(), op)
    modifies s, s.queues
    ensures s.Valid() && Stable(s.Snap()) && Chosen(old(s.Snap()), op, a)
    ensures Allowed(old(s.Snap()), a) && s.Snap() == Do(old(s.Snap()), a)
  {
    hide AllChains, Stable, InvBut, Tables, Placed;
    if OnSemaphore(op) {
      a := StepSemaphore(s, op);
    } else {
      a := StepProcess(s, op);
    }
  }

  method StepSemaphore(s: Scheduler, op: Act) returns (ghost a: Act)
    requires s.Valid() && Stable(s.Snap()) && Asked(s.Snap(), op) && OnSemaphore(op)
    modifies s, s.queues
    ensures s.Valid() && Stable(s.Snap()) && Chosen(old(s.Snap()), op, a)
    ensures Allowed(old(s.Snap()), a) && s.Snap() == Do(old(s.Snap()), a)
  {
    hide AllChains, Stable, InvBut, Tables, Placed;
    a := op;
    C.StableParts(s.Snap());
    match op {
      case Wait(i, _) =>
        a := Act.Wait(i, if !O.BadSem(s.Snap(), i) && s.semtab[i].count <= 0 then s.queues.tab[s.currpid].qkey else 0);
        var r := s.Wait(i);
      case Signal(i) => var r := s.Signal(i);
      case Signaln(i, n) => var r := s.Signaln(i, n);
      case Semreset(i, n) => var r := s.Semreset(i, n);
      case Semdelete(i) => var r := s.Semdelete(i);
      case Semcreate(_, n) =>
        var i := s.Semcreate(n);
        a := if i == -1 then Refused else Act.Semcreate(i, n);
    }
  }

  method StepProcess(s: Scheduler, op: Act) returns (ghost a: Act)
    requires s.Valid() && Stable(s.Snap()) && Asked(s.Snap(), op) && !OnSemaphore(op)
    modifies s, s.queues
    ensures s.Valid() && Stable(s.Snap()) && Chosen(old(s.Snap()), op, a)
    ensures Allowed(old(s.Snap()), a) && s.Snap() == Do(old(s.Snap()), a)
  {
    hide AllChains, Stable, InvBut, Tables, Placed;
    a := op;
    C.StableParts(s.Snap());
    match op {
      case Yield =>
        DoStable(s.Snap(), op);
        s.Resched(-1);
      case Send(p, m) => var r := s.Send(p, m);
      case Receive => s.Receive();
      case Take => var m := s.TakeMessage();
      case Recvtime(d) => var r := s.Recvtime(d);
      case Sleepms(d) => var r := s.Sleepms(d);
      case Suspend(p) => var r := s.Suspend(p);
      case Resume(p) => var r := s.Resume(p);
      case KillNotice(p) => var r := s.KillNotice(p);
      case KillRest(p) => s.KillRest(p);
      case Create(_, prio) =>
        var p := s.Create(prio);
        a := if p == -1 then Refused else Act.Create(p, prio);
      case ClockTick => s.Clkhandler();
    }
  }
}
