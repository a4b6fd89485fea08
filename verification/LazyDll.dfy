/**
  Loading a DLL and finding its procedures on first use: two levels of double-checked locking, the
  procedure's mutex outside and the DLL's mutex inside. Any number of threads take atomic steps.
 */
module LazyDll {
  import opened Basics

  type Tid = nat
  type Proc = nat

  /** Inside lazyDLL.Load: the unlocked check, the lock, the check under it, the system call, the store. */
  datatype LoadPc = Peek | Lock | Recheck | Call | Store(handle: nat) | Unlock(ok: bool) | Done(ok: bool)

  /** A caller of Load, or of lazyProc.Find for one procedure. */
  datatype Pc =
    | Loading(l: LoadPc)
    | FindPeek(p: Proc)
    | FindLock(p: Proc)
    | FindRecheck(p: Proc)
    | FindLoad(p: Proc, l: LoadPc)
    | FindCall(p: Proc)
    | FindStore(p: Proc, addr: nat)
    | FindUnlock(p: Proc, ok: bool)
    | FindDone(p: Proc, ok: bool)

  /** Zero stands for a handle or an address not set; a mutex is free or held by a thread. */
  datatype Sys = Sys(pcs: map<Tid, Pc>, mod: nat, addr: map<Proc, nat>,
                     dllMutex: Option<Tid>, procMutex: map<Proc, Option<Tid>>)

  /** How a system call ends; what it returns on success is never zero. */
  datatype Choice = Works(value: nat) | Fails

  // ---------------------------------------------------------------- steps

  /** Load by thread t, alone or within Find. */
  function LoadNext(l: LoadPc, mod: nat, mutex: Option<Tid>, t: Tid, c: Choice): (LoadPc, nat, Option<Tid>) {
    match l
    case Peek => (if mod != 0 then Done(true) else Lock, mod, mutex)
    case Lock => if mutex.None? then (Recheck, mod, Some(t)) else (l, mod, mutex)
    case Recheck => (if mod != 0 then Unlock(true) else Call, mod, mutex)
    case Call => (match c case Works(v) => if v > 0 then Store(v) else l case Fails => Unlock(false), mod, mutex)
    case Store(v) => (Unlock(true), v, mutex)
    case Unlock(ok) => (Done(ok), mod, None)
    case Done(_) => (l, mod, mutex)
  }

  function Addr(s: Sys, p: Proc): nat { if p in s.addr then s.addr[p] else 0 }

  function Holder(s: Sys, p: Proc): Option<Tid> { if p in s.procMutex then s.procMutex[p] else None }

  function Goto(s: Sys, t: Tid, pc: Pc): Sys { s.(pcs := s.pcs[t := pc]) }

  /** One atomic step of thread t; a thread that must wait stays where it is. */
  function Step(s: Sys, t: Tid, c: Choice): Sys
    requires t in s.pcs
  {
    match s.pcs[t]
    case Loading(l) =>
      var r := LoadNext(l, s.mod, s.dllMutex, t, c);
      Goto(s, t, Loading(r.0)).(mod := r.1, dllMutex := r.2)
    case FindPeek(p) => Goto(s, t, if Addr(s, p) != 0 then FindDone(p, true) else FindLock(p))
    case FindLock(p) =>
      if Holder(s, p).None? then Goto(s, t, FindRecheck(p)).(procMutex := s.procMutex[p := Some(t)]) else s
    case FindRecheck(p) => Goto(s, t, if Addr(s, p) != 0 then FindUnlock(p, true) else FindLoad(p, Peek))
    case FindLoad(p, l) =>
      if l.Done? then Goto(s, t, if l.ok then FindCall(p) else FindUnlock(p, false))
      else
        var r := LoadNext(l, s.mod, s.dllMutex, t, c);
        Goto(s, t, FindLoad(p, r.0)).(mod := r.1, dllMutex := r.2)
    case FindCall(p) =>
      (match c
       case Works(v) => if v > 0 then Goto(s, t, FindStore(p, v)) else s
       case Fails => Goto(s, t, FindUnlock(p, false)))
    case FindStore(p, a) => Goto(s, t, FindUnlock(p, true)).(addr := s.addr[p := a])
    case FindUnlock(p, ok) => Goto(s, t, FindDone(p, ok)).(procMutex := s.procMutex[p := None])
    case FindDone(_, _) => s
  }

  ghost predicate Initial(s: Sys) {
    && s.mod == 0 && s.addr == map[] && s.dllMutex == None && s.procMutex == map[]
    && forall t :: t in s.pcs ==> s.pcs[t] == Loading(Peek) || s.pcs[t].FindPeek?
  }

  ghost predicate Follows(s: Sys, who: (Tid, Choice), s': Sys) {
    who.0 in s.pcs && s' == Step(s, who.0, who.1)
  }

  ghost predicate StepAt(ss: seq<Sys>, sched: seq<(Tid, Choice)>, i: nat)
    requires i < |sched| && |ss| == |sched| + 1
  {
    Follows(ss[i], sched[i], ss[i + 1])
  }

  ghost predicate IsRun(ss: seq<Sys>, sched: seq<(Tid, Choice)>) {
    && |ss| == |sched| + 1
    && Initial(ss[0])
    && forall i :: 0 <= i < |sched| ==> StepAt(ss, sched, i)
  }

  // ---------------------------------------------------------------- invariant

  function LoadOf(pc: Pc): Option<LoadPc> {
    match pc case Loading(l) => Some(l) case FindLoad(_, l) => Some(l) case _ => None
  }

  predicate Locked(l: LoadPc) { l.Recheck? || l.Call? || l.Store? || l.Unlock? }

  predicate HoldsDll(pc: Pc) {
    LoadOf(pc).Some? && Locked(LoadOf(pc).value)
  }

  predicate HoldsProc(pc: Pc, p: Proc) {
    match pc
    case FindRecheck(q) => q == p
    case FindLoad(q, _) => q == p
    case FindCall(q) => q == p
    case FindStore(q, _) => q == p
    case FindUnlock(q, _) => q == p
    case _ => false
  }

  /** What a thread knows at each point of its way, from the values it has seen. */
  ghost predicate Knows(s: Sys, pc: Pc) {
    && (match LoadOf(pc)
        case None => true
        case Some(l) =>
          && (l.Call? ==> s.mod == 0)
          && (l.Store? ==> s.mod == 0 && l.handle > 0)
          && (l == Unlock(true) || l == Done(true) ==> s.mod != 0))
    && (match pc
        case FindLoad(p, _) => Addr(s, p) == 0
        case FindCall(p) => Addr(s, p) == 0 && s.mod != 0
        case FindStore(p, a) => Addr(s, p) == 0 && s.mod != 0 && a > 0
        case FindUnlock(p, ok) => ok ==> Addr(s, p) != 0
        case FindDone(p, ok) => ok ==> Addr(s, p) != 0
        case _ => true)
  }

  ghost predicate HeldProc(s: Sys, t: Tid, p: Proc)
    requires t in s.pcs
  {
    HoldsProc(s.pcs[t], p) <==> Holder(s, p) == Some(t)
  }

  /** A thread holds the mutexes its place in the code says, and no others. */
  ghost predicate Held(s: Sys, t: Tid)
    requires t in s.pcs
  {
    && (HoldsDll(s.pcs[t]) <==> s.dllMutex == Some(t))
    && (forall p {:trigger HeldProc(s, t, p)} :: HeldProc(s, t, p))
  }

  function ProcOf(pc: Pc): Proc {
    match pc case Loading(_) => 0 case _ => pc.p
  }

  /** Only a known thread holds a mutex. */
  ghost predicate NoStray(s: Sys) {
    && (s.dllMutex.Some? ==> s.dllMutex.value in s.pcs)
    && (forall p :: Holder(s, p).Some? ==> Holder(s, p).value in s.pcs)
  }

  ghost predicate Inv(s: Sys) {
    && NoStray(s)
    && (forall p :: Addr(s, p) != 0 ==> s.mod != 0)
    && (forall t {:trigger Held(s, t)} :: t in s.pcs ==> Held(s, t))
    && (forall t {:trigger Knows(s, s.pcs[t])} :: t in s.pcs ==> Knows(s, s.pcs[t]))
  }

  /** The shared values only change from zero to non-zero, and only under their mutex. */
  ghost predicate Once(s: Sys, s': Sys, t: Tid) {
    && (s'.mod != s.mod ==> s.mod == 0 && s.dllMutex == Some(t))
    && (forall p :: Addr(s', p) != Addr(s, p) ==> Addr(s, p) == 0 && Holder(s, p) == Some(t))
  }

  lemma StepOnce(s: Sys, t: Tid, c: Choice)
    requires Inv(s) && t in s.pcs
    ensures Once(s, Step(s, t, c), t)
  {
    assert Held(s, t) && Knows(s, s.pcs[t]) && HeldProc(s, t, ProcOf(s.pcs[t]));
  }

  lemma StepHeld(s: Sys, t: Tid, c: Choice, u: Tid)
    requires Inv(s) && t in s.pcs && u in s.pcs
    ensures Held(Step(s, t, c), u)
  {
    var s' := Step(s, t, c);
    assert Held(s, t) && Held(s, u) && HeldProc(s, t, ProcOf(s.pcs[t]));
    StepHeldDll(s, t, c, u);
    hide Step, HoldsDll, HoldsProc;
    forall p ensures HeldProc(s', u, p) {
      assert HeldProc(s, u, p) && HeldProc(s, t, p);
      StepHeldProc(s, t, c, u, p);
    }
  }

  lemma StepHeldDll(s: Sys, t: Tid, c: Choice, u: Tid)
    requires t in s.pcs && u in s.pcs
    requires HoldsDll(s.pcs[t]) <==> s.dllMutex == Some(t)
    requires HoldsDll(s.pcs[u]) <==> s.dllMutex == Some(u)
    ensures var s' := Step(s, t, c); HoldsDll(s'.pcs[u]) <==> s'.dllMutex == Some(u)
  {
    hide LoadNext;
    if LoadOf(s.pcs[t]).Some? {
      LoadHolds(LoadOf(s.pcs[t]).value, s.mod, s.dllMutex, t, c);
    }
  }

  lemma LoadHolds(l: LoadPc, mod: nat, mutex: Option<Tid>, t: Tid, c: Choice)
    requires Locked(l) <==> mutex == Some(t)
    ensures var r := LoadNext(l, mod, mutex, t, c);
      && (Locked(r.0) <==> r.2 == Some(t))
      && (r.2 == mutex || (mutex == None && r.2 == Some(t)) || (mutex == Some(t) && r.2 == None))
    ensures l.Done? ==> !Locked(l)
    ensures !Locked(Peek)
  {}

  lemma StepHeldProc(s: Sys, t: Tid, c: Choice, u: Tid, p: Proc)
    requires t in s.pcs && u in s.pcs && HeldProc(s, u, p) && HeldProc(s, t, p) && HeldProc(s, t, ProcOf(s.pcs[t]))
    ensures HeldProc(Step(s, t, c), u, p)
  {}

  /** Another thread's knowledge survives: what it relies on is guarded by a mutex it holds, or never undone. */
  lemma OthersKnow(s: Sys, s': Sys, t: Tid, u: Tid)
    requires t != u && u in s.pcs && Once(s, s', t)
    requires Held(s, u) && HeldProc(s, u, ProcOf(s.pcs[u])) && Knows(s, s.pcs[u])
    ensures Knows(s', s.pcs[u])
  {
    var p := ProcOf(s.pcs[u]);
    assert Addr(s', p) != Addr(s, p) ==> Addr(s, p) == 0 && Holder(s, p) == Some(t);
  }

  lemma SelfKnows(s: Sys, t: Tid, c: Choice)
    requires t in s.pcs && Held(s, t) && Knows(s, s.pcs[t])
    ensures Knows(Step(s, t, c), Step(s, t, c).pcs[t])
  {}

  lemma StepKnows(s: Sys, t: Tid, c: Choice, u: Tid)
    requires Inv(s) && t in s.pcs && u in s.pcs
    ensures Knows(Step(s, t, c), Step(s, t, c).pcs[u])
  {
    assert Held(s, t) && Held(s, u) && Knows(s, s.pcs[t]) && Knows(s, s.pcs[u]);
    if u == t {
      SelfKnows(s, t, c);
    } else {
      StepOnce(s, t, c);
      assert HeldProc(s, u, ProcOf(s.pcs[u]));
      OthersKnow(s, Step(s, t, c), t, u);
    }
  }

  lemma InvStep(s: Sys, t: Tid, c: Choice)
    requires Inv(s) && t in s.pcs
    ensures Inv(Step(s, t, c))
  {
    var s' := Step(s, t, c);
    assert Held(s, t);
    forall p | Holder(s', p).Some? ensures Holder(s', p).value in s'.pcs {
      assert Holder(s, p).Some? ==> Holder(s, p).value in s.pcs;
    }
    StepOnce(s, t, c);
    assert Knows(s, s.pcs[t]);
    forall p | Addr(s', p) != 0 ensures s'.mod != 0 {
      assert Addr(s, p) != 0 ==> s.mod != 0;
    }
    forall u | u in s'.pcs ensures Held(s', u) && Knows(s', s'.pcs[u]) {
      StepHeld(s, t, c, u);
      StepKnows(s, t, c, u);
    }
  }

  // ---------------------------------------------------------------- every run

  lemma {:induction false} RunInv(ss: seq<Sys>, sched: seq<(Tid, Choice)>, i: nat)
    requires IsRun(ss, sched) && i <= |sched|
    ensures Inv(ss[i])
  {
    if i == 0 {
      forall t | t in ss[0].pcs ensures Held(ss[0], t) {
        forall p ensures HeldProc(ss[0], t, p) {}
      }
    } else {
      RunInv(ss, sched, i - 1);
      assert StepAt(ss, sched, i - 1);
      InvStep(ss[i - 1], sched[i - 1].0, sched[i - 1].1);
    }
  }

  /** The module handle and every procedure address are set at most once and never change again. */
  lemma {:induction false} SetOnce(ss: seq<Sys>, sched: seq<(Tid, Choice)>, i: nat, k: nat, p: Proc)
    requires IsRun(ss, sched) && i <= k <= |sched|
    ensures ss[i].mod != 0 ==> ss[k].mod == ss[i].mod
    ensures Addr(ss[i], p) != 0 ==> Addr(ss[k], p) == Addr(ss[i], p)
    decreases k - i
  {
    if i < k {
      SetOnce(ss, sched, i, k - 1, p);
      RunInv(ss, sched, k - 1);
      assert StepAt(ss, sched, k - 1);
      StepOnce(ss[k - 1], sched[k - 1].0, sched[k - 1].1);
    }
  }

  /** A nil return means that the value is there, now and for good; an address implies a loaded module. */
  lemma NilMeansSet(ss: seq<Sys>, sched: seq<(Tid, Choice)>, i: nat, k: nat, t: Tid)
    requires IsRun(ss, sched) && i <= k <= |sched| && t in ss[i].pcs
    ensures ss[i].pcs[t] == Loading(Done(true)) ==> ss[i].mod != 0 && ss[k].mod == ss[i].mod
    ensures ss[i].pcs[t].FindDone? && ss[i].pcs[t].ok ==>
              var p := ss[i].pcs[t].p; ss[i].mod != 0 && Addr(ss[i], p) != 0 && Addr(ss[k], p) == Addr(ss[i], p)
  {
    RunInv(ss, sched, i);
    assert Knows(ss[i], ss[i].pcs[t]);
    SetOnce(ss, sched, i, k, ProcOf(ss[i].pcs[t]));
  }

  /** No two threads are ever inside the same mutex. */
  lemma MutualExclusion(ss: seq<Sys>, sched: seq<(Tid, Choice)>, i: nat, t: Tid, u: Tid, p: Proc)
    requires IsRun(ss, sched) && i <= |sched| && t in ss[i].pcs && u in ss[i].pcs && t != u
    ensures !(HoldsDll(ss[i].pcs[t]) && HoldsDll(ss[i].pcs[u]))
    ensures !(HoldsProc(ss[i].pcs[t], p) && HoldsProc(ss[i].pcs[u], p))
  {
    RunInv(ss, sched, i);
    assert Held(ss[i], t) && Held(ss[i], u) && HeldProc(ss[i], t, p) && HeldProc(ss[i], u, p);
  }

  // ---------------------------------------------------------------- what is answered

  /** Load after its system call has worked: nil, with that handle. In Find the search goes on. */
  predicate LoadWorked(s: Sys, pc: Pc, v: nat) {
    match LoadOf(pc)
    case Some(l) => l == Store(v) || ((l == Unlock(true) || l == Done(true)) && s.mod == v)
    case None => (pc.FindCall? || pc.FindStore? || pc.FindUnlock? || pc.FindDone?) && s.mod == v
  }

  /** Load after its system call has failed: an error, which Find passes on. */
  predicate LoadFailed(pc: Pc) {
    match LoadOf(pc)
    case Some(l) => l == Unlock(false) || l == Done(false)
    case None => (pc.FindUnlock? || pc.FindDone?) && !pc.ok
  }

  /** Load of what is loaded: nil in the end, and no system call. */
  predicate LoadNotNeeded(pc: Pc) {
    match LoadOf(pc)
    case Some(l) => l.Peek? || l.Lock? || l.Recheck? || l == Unlock(true) || l == Done(true)
    case None => pc.FindCall? || pc.FindStore? || pc.FindUnlock? || pc.FindDone?
  }

  predicate FindWorked(s: Sys, pc: Pc, p: Proc, a: nat) {
    pc == FindStore(p, a) || ((pc == FindUnlock(p, true) || pc == FindDone(p, true)) && Addr(s, p) == a)
  }

  predicate FindFailed(pc: Pc, p: Proc) { pc == FindUnlock(p, false) || pc == FindDone(p, false) }

  predicate FindNotNeeded(pc: Pc, p: Proc) {
    || pc == FindPeek(p) || pc == FindLock(p) || pc == FindRecheck(p)
    || pc == FindUnlock(p, true) || pc == FindDone(p, true)
  }

  /** The answer follows from how the system call has ended. */
  lemma CallDecides(s: Sys, t: Tid, c: Choice)
    requires t in s.pcs
    ensures var pc := Step(s, t, c).pcs[t];
      && (LoadOf(s.pcs[t]) == Some(Call) && c.Works? && c.value > 0 ==> LoadWorked(Step(s, t, c), pc, c.value))
      && (LoadOf(s.pcs[t]) == Some(Call) && c.Fails? ==> LoadFailed(pc))
      && (s.pcs[t].FindCall? && c.Works? && c.value > 0 ==> FindWorked(Step(s, t, c), pc, s.pcs[t].p, c.value))
      && (s.pcs[t].FindCall? && c.Fails? ==> FindFailed(pc, s.pcs[t].p))
  {}

  lemma AnswerStays(s: Sys, u: Tid, c: Choice, t: Tid, v: nat, p: Proc)
    requires Inv(s) && u in s.pcs && t in s.pcs
    ensures var s', pc := Step(s, u, c), s.pcs[t];
      && (v > 0 && LoadWorked(s, pc, v) ==> LoadWorked(s', s'.pcs[t], v))
      && (LoadFailed(pc) ==> LoadFailed(s'.pcs[t]))
      && (s.mod != 0 && LoadNotNeeded(pc) ==> LoadNotNeeded(s'.pcs[t]))
      && (v > 0 && FindWorked(s, pc, p, v) ==> FindWorked(s', s'.pcs[t], p, v))
      && (FindFailed(pc, p) ==> FindFailed(s'.pcs[t], p))
      && (Addr(s, p) != 0 && FindNotNeeded(pc, p) ==> FindNotNeeded(s'.pcs[t], p))
  {
    StepOnce(s, u, c);
    if u != t {
      assert Step(s, u, c).pcs[t] == s.pcs[t];
      hide Step;
    }
  }

  /** A Load whose call has worked can only return nil, and one whose call has failed only an error; so for Find. */
  lemma {:induction false} CallIsAnswered(ss: seq<Sys>, sched: seq<(Tid, Choice)>, n: nat, m: nat, t: Tid)
    requires IsRun(ss, sched) && n < m <= |sched| && sched[n].0 == t && t in ss[n].pcs
    ensures t in ss[m].pcs
    ensures var c, l := sched[n].1, LoadOf(ss[n].pcs[t]);
      && (l == Some(Call) && c.Works? && c.value > 0 ==> LoadWorked(ss[m], ss[m].pcs[t], c.value))
      && (l == Some(Call) && c.Fails? ==> LoadFailed(ss[m].pcs[t]))
      && (ss[n].pcs[t].FindCall? && c.Works? && c.value > 0 ==>
            FindWorked(ss[m], ss[m].pcs[t], ss[n].pcs[t].p, c.value))
      && (ss[n].pcs[t].FindCall? && c.Fails? ==> FindFailed(ss[m].pcs[t], ss[n].pcs[t].p))
    decreases m - n
  {
    hide Step, LoadWorked, LoadFailed, FindWorked, FindFailed, LoadNotNeeded, FindNotNeeded, Inv;
    assert StepAt(ss, sched, m - 1);
    if m == n + 1 {
      CallDecides(ss[n], t, sched[n].1);
      KeepsThreads(ss[n], t, sched[n].1);
    } else {
      CallIsAnswered(ss, sched, n, m - 1, t);
      RunInv(ss, sched, m - 1);
      KeepsThreads(ss[m - 1], sched[m - 1].0, sched[m - 1].1);
      var v := if sched[n].1.Works? then sched[n].1.value else 0;
      AnswerStays(ss[m - 1], sched[m - 1].0, sched[m - 1].1, t, v, ProcOf(ss[n].pcs[t]));
    }
  }

  lemma KeepsThreads(s: Sys, t: Tid, c: Choice)
    requires t in s.pcs
    ensures Step(s, t, c).pcs.Keys == s.pcs.Keys
  {}

  /** What is loaded or found already is answered with nil, without a call to the system. */
  lemma {:induction false} KnownIsAnswered(ss: seq<Sys>, sched: seq<(Tid, Choice)>, n: nat, m: nat, t: Tid, p: Proc)
    requires IsRun(ss, sched) && n <= m <= |sched| && t in ss[n].pcs
    ensures t in ss[m].pcs
    ensures ss[n].mod != 0 && LoadNotNeeded(ss[n].pcs[t]) ==> LoadNotNeeded(ss[m].pcs[t])
    ensures Addr(ss[n], p) != 0 && FindNotNeeded(ss[n].pcs[t], p) ==> FindNotNeeded(ss[m].pcs[t], p)
    decreases m - n
  {
    hide Step, LoadNotNeeded, FindNotNeeded, Inv, LoadWorked, LoadFailed, FindWorked, FindFailed;
    if n < m {
      KnownIsAnswered(ss, sched, n, m - 1, t, p);
      assert StepAt(ss, sched, m - 1);
      RunInv(ss, sched, m - 1);
      SetOnce(ss, sched, n, m - 1, p);
      KeepsThreads(ss[m - 1], sched[m - 1].0, sched[m - 1].1);
      AnswerStays(ss[m - 1], sched[m - 1].0, sched[m - 1].1, t, 0, p);
    }
  }

  // ---------------------------------------------------------------- no deadlock

  predicate AtEnd(pc: Pc) {
    pc.FindDone? || (pc.Loading? && pc.l.Done?)
  }

  /** Thread t can go on, whatever the system calls answer. */
  ghost predicate Enabled(s: Sys, t: Tid)
    requires t in s.pcs
  {
    forall c: Choice :: (c.Works? ==> c.value > 0) ==> Step(s, t, c).pcs[t] != s.pcs[t]
  }

  /** The thread a blocked thread waits for, followed from a procedure's mutex to the DLL's. */
  function Blocker(s: Sys, t: Tid): Tid
    requires t in s.pcs
  {
    match s.pcs[t]
    case FindLock(p) =>
      (match Holder(s, p)
       case Some(u) =>
         if u in s.pcs && LoadOf(s.pcs[u]) == Some(Lock) && s.dllMutex.Some? then s.dllMutex.value else u
       case None => t)
    case _ => if LoadOf(s.pcs[t]) == Some(Lock) && s.dllMutex.Some? then s.dllMutex.value else t
  }

  /** In every reachable state, behind every unfinished thread stands one that can go on. */
  lemma NoDeadlock(ss: seq<Sys>, sched: seq<(Tid, Choice)>, i: nat, t: Tid)
    requires IsRun(ss, sched) && i <= |sched| && t in ss[i].pcs && !AtEnd(ss[i].pcs[t])
    ensures Blocker(ss[i], t) in ss[i].pcs && !AtEnd(ss[i].pcs[Blocker(ss[i], t)])
    ensures Enabled(ss[i], Blocker(ss[i], t))
  {
    var s := ss[i];
    RunInv(ss, sched, i);
    var b := Blocker(s, t);
    assert b in s.pcs;
    assert Held(s, b) && Held(s, t);
    var p := ProcOf(s.pcs[t]);
    assert HeldProc(s, b, p);
    if Holder(s, p).Some? {
      var u := Holder(s, p).value;
      assert Held(s, u) && HeldProc(s, u, p);
    }
  }
}
