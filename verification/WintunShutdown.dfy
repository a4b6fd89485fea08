/**
  Shutting a Windows tunnel down while readers and writers are at work: a closed flag, a count of the
  calls in progress, and one session that must not be used once it is being ended. Any number of
  threads take atomic steps in any order; a session call takes a step to begin and a step to finish.
 */
module WintunShutdown {
  import opened Basics

  type Tid = nat

  datatype Call = Receive | Release | Allocate | Send | End

  /** Where a thread stands in Read, Write or Close. */
  datatype Pc =
    // Read
    | ReadStart | ReadCheck | ReadCall | Receiving | Received | Releasing | Waiting
    // Write
    | WriteStart | WriteCheck | WriteCall | Allocating | Allocated | Sending
    // both: running.Done still to come
    | Leaving
    // Close
    | CloseStart | CloseOnce | CloseStore | CloseSignal | CloseWait | CloseEnd | Ending | CloseAdapter | CloseReturn
    | Finished(won: bool)

  /** once tells whether onceClose has been entered. */
  datatype Sys = Sys(pcs: map<Tid, Pc>, closed: bool, running: nat, once: bool, trace: seq<Event>)

  /** What the outside world decides: how a call ends, whether a packet is well formed. */
  datatype Choice = Ok | Again | Fail

  /** What can be seen: session calls, a packet turned down, the event set, the adapter closed. */
  datatype Event =
    | Begin(t: Tid, call: Call)
    | Return(t: Tid, call: Call, result: Choice)
    | Malformed(t: Tid)
    | Signalled(t: Tid)
    | AdapterClosed(t: Tid)

  /** Between running.Add and running.Done. */
  predicate Counted(pc: Pc) {
    pc.ReadCheck? || pc.ReadCall? || pc.Receiving? || pc.Received? || pc.Releasing? || pc.Waiting?
    || pc.WriteCheck? || pc.WriteCall? || pc.Allocating? || pc.Allocated? || pc.Sending? || pc.Leaving?
  }

  /** Past the closed check: about to use the session, using it, or waiting for its event. */
  predicate UsesSession(pc: Pc) {
    pc.ReadCall? || pc.Receiving? || pc.Received? || pc.Releasing? || pc.Waiting?
    || pc.WriteCall? || pc.Allocating? || pc.Allocated? || pc.Sending?
  }

  /** The one closer that found the flag clear. */
  predicate Winner(pc: Pc) {
    pc.CloseOnce? || pc.CloseStore? || pc.CloseSignal? || pc.CloseWait?
    || PastWait(pc)
  }

  predicate PastWait(pc: Pc) {
    pc.CloseEnd? || pc.Ending? || pc.CloseAdapter? || pc.CloseReturn? || pc == Finished(true)
  }

  predicate EndBegun(pc: Pc) {
    pc.Ending? || pc.CloseAdapter? || pc.CloseReturn? || pc == Finished(true)
  }

  predicate InCall(pc: Pc, call: Call) {
    match call
    case Receive => pc == Receiving
    case Release => pc == Releasing
    case Allocate => pc == Allocating
    case Send => pc == Sending
    case End => pc == Ending
  }

  /** One thread's view of a step: where it goes, what becomes of the shared fields, what can be seen. */
  datatype Move = Move(pc: Pc, closed: bool, running: nat, once: bool, event: Option<Event>)

  /** A thread that must wait stays where it is. */
  function Moved(pc: Pc, closed: bool, running: nat, once: bool, t: Tid, c: Choice): Move {
    var m := Move(pc, closed, running, once, None);
    match pc
    case ReadStart => m.(pc := ReadCheck, running := running + 1)
    case ReadCheck => m.(pc := if closed then Leaving else ReadCall)
    case ReadCall => m.(pc := Receiving, event := Some(Begin(t, Receive)))
    case Receiving =>
      var next := match c case Ok => Received case Again => Waiting case Fail => Leaving;
      m.(pc := next, event := Some(Return(t, Receive, c)))
    case Received => m.(pc := Releasing, event := Some(Begin(t, Release)))
    case Releasing => m.(pc := Leaving, event := Some(Return(t, Release, Ok)))
    case Waiting => m.(pc := ReadCheck)
    case WriteStart => m.(pc := WriteCheck, running := running + 1)
    case WriteCheck =>
      if closed then m.(pc := Leaving)
      else if c.Ok? then m.(pc := WriteCall)
      else m.(pc := Leaving, event := Some(Malformed(t)))
    case WriteCall => m.(pc := Allocating, event := Some(Begin(t, Allocate)))
    case Allocating => m.(pc := if c.Ok? then Allocated else Leaving, event := Some(Return(t, Allocate, c)))
    case Allocated => m.(pc := Sending, event := Some(Begin(t, Send)))
    case Sending => m.(pc := Leaving, event := Some(Return(t, Send, Ok)))
    case Leaving => if running == 0 then m else m.(pc := Finished(false), running := running - 1)
    case CloseStart => if closed then m.(pc := Finished(false)) else m.(pc := CloseOnce, closed := true)
    case CloseOnce => if once then m.(pc := CloseReturn) else m.(pc := CloseStore, once := true)
    case CloseStore => m.(pc := CloseSignal, closed := true)
    case CloseSignal => m.(pc := CloseWait, event := Some(Signalled(t)))
    case CloseWait => if running > 0 then m else m.(pc := CloseEnd)
    case CloseEnd => m.(pc := Ending, event := Some(Begin(t, End)))
    case Ending => m.(pc := CloseAdapter, event := Some(Return(t, End, Ok)))
    case CloseAdapter => m.(pc := CloseReturn, event := Some(AdapterClosed(t)))
    case CloseReturn => m.(pc := Finished(true))
    case Finished(_) => m
  }

  function Step(s: Sys, t: Tid, c: Choice): Sys
    requires t in s.pcs
  {
    var m := Moved(s.pcs[t], s.closed, s.running, s.once, t, c);
    Sys(s.pcs[t := m.pc], m.closed, m.running, m.once, s.trace + match m.event case None => [] case Some(e) => [e])
  }

  // ---------------------------------------------------------------- runs

  ghost predicate Initial(s: Sys) {
    && !s.closed && s.running == 0 && !s.once && s.trace == []
    && forall t :: t in s.pcs ==> s.pcs[t].ReadStart? || s.pcs[t].WriteStart? || s.pcs[t].CloseStart?
  }

  ghost predicate Follows(s: Sys, who: (Tid, Choice), s': Sys) {
    who.0 in s.pcs && s' == Step(s, who.0, who.1)
  }

  ghost predicate StepAt(ss: seq<Sys>, sched: seq<(Tid, Choice)>, i: nat)
    requires i < |sched| && |ss| == |sched| + 1
  {
    Follows(ss[i], sched[i], ss[i + 1])
  }

  /** Any threads, scheduled in any order, with any outcomes. */
  ghost predicate IsRun(ss: seq<Sys>, sched: seq<(Tid, Choice)>) {
    && |ss| == |sched| + 1
    && Initial(ss[0])
    && forall i :: 0 <= i < |sched| ==> StepAt(ss, sched, i)
  }

  // ---------------------------------------------------------------- invariant

  ghost function Group(s: Sys): set<Tid> {
    set t | t in s.pcs && Counted(s.pcs[t])
  }

  ghost predicate OneWinner(s: Sys) {
    && (forall t, u :: t in s.pcs && u in s.pcs && Winner(s.pcs[t]) && Winner(s.pcs[u]) ==> t == u)
    && (forall t :: t in s.pcs && Winner(s.pcs[t]) ==> s.closed)
    && (forall t :: t in s.pcs && s.pcs[t].CloseOnce? ==> !s.once)
    && (s.once ==> s.closed)
  }

  /** Once a closer is past the wait, nobody is past a check with the session still to be used. */
  ghost predicate Quiet(s: Sys) {
    forall t, u :: t in s.pcs && u in s.pcs && PastWait(s.pcs[t]) ==> !UsesSession(s.pcs[u])
  }

  predicate BeginsEnd(e: Event) { e.Begin? && e.call.End? }

  /** What may follow the beginning of End: its return, and the closing of the adapter. */
  predicate AfterEnd(e: Event, t: Tid) { e == Return(t, End, Ok) || e == AdapterClosed(t) }

  /** After End has begun, there is nothing but that. */
  ghost predicate EndLast(trace: seq<Event>) {
    forall i, j :: 0 <= i < j < |trace| && BeginsEnd(trace[i]) ==> AfterEnd(trace[j], trace[i].t)
  }

  /** A begun End is still going on, as the last event, or its closer is past it. */
  ghost predicate EndKnown(s: Sys) {
    forall i :: 0 <= i < |s.trace| && BeginsEnd(s.trace[i]) ==>
      && s.trace[i].t in s.pcs && EndBegun(s.pcs[s.trace[i].t])
      && (s.pcs[s.trace[i].t].Ending? ==> i == |s.trace| - 1)
  }

  ghost predicate Inv(s: Sys) {
    && s.running == |Group(s)|
    && OneWinner(s) && Quiet(s) && EndLast(s.trace) && EndKnown(s)
  }

  // ---------------------------------------------------------------- one step

  /** What one step can do to its own thread and to the shared fields. */
  lemma MoveFacts(pc: Pc, closed: bool, running: nat, once: bool, t: Tid, c: Choice)
    ensures var m := Moved(pc, closed, running, once, t, c);
      && (closed ==> m.closed)
      && (Winner(pc) ==> Winner(m.pc))
      && (Winner(m.pc) && !Winner(pc) ==> !closed && m.closed && m.pc.CloseOnce?)
      && (m.once && !once ==> pc.CloseOnce?)
      && (pc.CloseOnce? ==> !m.pc.CloseOnce?)
      && (PastWait(m.pc) ==> PastWait(pc) || pc.CloseOnce? || (pc.CloseWait? && running == 0))
      && (PastWait(m.pc) && pc.CloseOnce? ==> once)
      && (UsesSession(m.pc) ==> UsesSession(pc) || !closed)
  {}

  lemma CountFacts(pc: Pc, closed: bool, running: nat, once: bool, t: Tid, c: Choice)
    requires Counted(pc) ==> running > 0
    ensures var m := Moved(pc, closed, running, once, t, c);
      m.running == running + (if Counted(m.pc) then 1 else 0) - (if Counted(pc) then 1 else 0)
  {}

  lemma EventFacts(pc: Pc, closed: bool, running: nat, once: bool, t: Tid, c: Choice)
    ensures var m := Moved(pc, closed, running, once, t, c);
      && (m.event.Some? ==> m.event.value.t == t)
      && (m.event.Some? ==> UsesSession(pc) || pc.CloseEnd? || (pc.WriteCheck? && !closed) || pc.CloseSignal?
                            || ((pc.Ending? || pc.CloseAdapter?) && AfterEnd(m.event.value, t)))
      && (m.event.Some? && BeginsEnd(m.event.value) ==> pc.CloseEnd?)
      && (pc.CloseEnd? ==> m.pc.Ending?)
      && (EndBegun(pc) ==> EndBegun(m.pc))
      && (m.pc.Ending? ==> pc.CloseEnd?)
  {}

  lemma WinnerFacts(pc: Pc)
    ensures PastWait(pc) ==> Winner(pc)
    ensures EndBegun(pc) || pc.CloseEnd? ==> PastWait(pc)
    ensures UsesSession(pc) ==> Counted(pc) && !Winner(pc)
    ensures pc.CloseOnce? || pc.CloseSignal? || pc.CloseWait? ==> Winner(pc)
    ensures pc.CloseEnd? || pc.CloseSignal? ==> !EndBegun(pc)
  {}

  lemma GroupStep(s: Sys, t: Tid, c: Choice)
    requires t in s.pcs && s.running == |Group(s)|
    ensures Step(s, t, c).running == |Group(Step(s, t, c))|
  {
    hide Moved, Counted;
    var s' := Step(s, t, c);
    var pc, pc' := s.pcs[t], s'.pcs[t];
    if Counted(pc) { assert t in Group(s); }
    CountFacts(pc, s.closed, s.running, s.once, t, c);
    if Counted(pc) == Counted(pc') {
      assert Group(s') == Group(s);
    } else if Counted(pc) {
      assert Group(s') == Group(s) - {t};
    } else {
      assert Group(s') == Group(s) + {t};
    }
  }

  lemma WinnerStep(s: Sys, t: Tid, c: Choice)
    requires t in s.pcs && OneWinner(s)
    ensures OneWinner(Step(s, t, c))
  {
    MoveFacts(s.pcs[t], s.closed, s.running, s.once, t, c);
    WinnerFacts(s.pcs[t]);
    forall u | u in s.pcs ensures s.pcs[u].CloseOnce? ==> Winner(s.pcs[u]) { WinnerFacts(s.pcs[u]); }
    hide Moved, Winner, PastWait, UsesSession;
  }

  lemma QuietStep(s: Sys, t: Tid, c: Choice)
    requires t in s.pcs && s.running == |Group(s)| && OneWinner(s) && Quiet(s)
    ensures Quiet(Step(s, t, c))
  {
    hide Moved, Winner, PastWait, UsesSession, Counted;
    MoveFacts(s.pcs[t], s.closed, s.running, s.once, t, c);
    forall u | u in s.pcs
      ensures PastWait(s.pcs[u]) ==> Winner(s.pcs[u])
      ensures s.running == 0 ==> !UsesSession(s.pcs[u])
    {
      WinnerFacts(s.pcs[u]);
      if Counted(s.pcs[u]) { assert u in Group(s); }
    }
    WinnerFacts(s.pcs[t]);
    WinnerFacts(Step(s, t, c).pcs[t]);
  }

  lemma TraceStep(s: Sys, t: Tid, c: Choice)
    requires t in s.pcs && Inv(s)
    ensures EndLast(Step(s, t, c).trace) && EndKnown(Step(s, t, c))
  {
    var s' := Step(s, t, c);
    EventFacts(s.pcs[t], s.closed, s.running, s.once, t, c);
    WinnerFacts(s.pcs[t]);
    forall u | u in s.pcs ensures EndBegun(s.pcs[u]) ==> PastWait(s.pcs[u]) && Winner(s.pcs[u]) {
      WinnerFacts(s.pcs[u]);
    }
    hide Moved, Winner, PastWait, UsesSession, EndBegun;
    forall i | 0 <= i < |s.trace| && BeginsEnd(s.trace[i])
      ensures |s'.trace| > |s.trace| ==> AfterEnd(s'.trace[|s.trace|], s.trace[i].t)
    {
      var w := s.trace[i].t;
      assert w in s.pcs && EndBegun(s.pcs[w]);
    }
  }

  lemma InvStep(s: Sys, t: Tid, c: Choice)
    requires t in s.pcs && Inv(s)
    ensures Inv(Step(s, t, c))
  {
    GroupStep(s, t, c);
    WinnerStep(s, t, c);
    QuietStep(s, t, c);
    TraceStep(s, t, c);
  }

  // ---------------------------------------------------------------- every run

  lemma {:induction false} RunInv(ss: seq<Sys>, sched: seq<(Tid, Choice)>, i: nat)
    requires IsRun(ss, sched) && i <= |sched|
    ensures Inv(ss[i])
  {
    if i == 0 {
      assert Group(ss[0]) == {};
    } else {
      RunInv(ss, sched, i - 1);
      assert StepAt(ss, sched, i - 1);
      InvStep(ss[i - 1], sched[i - 1].0, sched[i - 1].1);
    }
  }

  /** session.End is called at most once; after that it returns and the adapter closes, and nothing else is seen. */
  lemma EndOnceAndLast(ss: seq<Sys>, sched: seq<(Tid, Choice)>, n: nat, i: nat, k: nat)
    requires IsRun(ss, sched) && n <= |sched|
    requires i < k < |ss[n].trace| && BeginsEnd(ss[n].trace[i])
    ensures ss[n].trace[k] == Return(ss[n].trace[i].t, End, Ok) || ss[n].trace[k] == AdapterClosed(ss[n].trace[i].t)
  {
    RunInv(ss, sched, n);
  }

  /** While End runs, and ever after, no thread is inside a session call or about to make one. */
  lemma NoUseDuringEnd(ss: seq<Sys>, sched: seq<(Tid, Choice)>, n: nat, closer: Tid, t: Tid, call: Call)
    requires IsRun(ss, sched) && n <= |sched|
    requires closer in ss[n].pcs && EndBegun(ss[n].pcs[closer]) && t in ss[n].pcs
    ensures !UsesSession(ss[n].pcs[t])
    ensures InCall(ss[n].pcs[t], call) ==> call == End && t == closer
  {
    RunInv(ss, sched, n);
    WinnerFacts(ss[n].pcs[closer]);
    WinnerFacts(ss[n].pcs[t]);
  }

  /** Of all the closers, only one gets past the flag; the count is the number of calls in progress. */
  lemma OneCloser(ss: seq<Sys>, sched: seq<(Tid, Choice)>, n: nat, t: Tid, u: Tid)
    requires IsRun(ss, sched) && n <= |sched|
    requires t in ss[n].pcs && u in ss[n].pcs && Winner(ss[n].pcs[t]) && Winner(ss[n].pcs[u])
    ensures t == u && ss[n].closed && ss[n].running == |Group(ss[n])|
  {
    RunInv(ss, sched, n);
  }

  // ---------------------------------------------------------------- what is done, and how often

  function Times(trace: seq<Event>, e: Event): nat {
    if trace == [] then 0 else Times(trace[..|trace| - 1], e) + Bit(trace[|trace| - 1] == e)
  }

  lemma TimesNext(trace: seq<Event>, next: Option<Event>, e: Event)
    ensures Times(trace + match next case None => [] case Some(x) => [x], e) == Times(trace, e) + Bit(next == Some(e))
  {
    match next
    case None => assert trace + [] == trace;
    case Some(x) => assert (trace + [x])[..|trace|] == trace;
  }

  /** Calls return as often as they begin; what is received is released, and what is allocated is sent. */
  ghost predicate Brackets(trace: seq<Event>, t: Tid, pc: Pc) {
    && Times(trace, Begin(t, Receive)) ==
         Times(trace, Return(t, Receive, Ok)) + Times(trace, Return(t, Receive, Again))
         + Times(trace, Return(t, Receive, Fail)) + Bit(pc.Receiving?)
    && Times(trace, Begin(t, Allocate)) ==
         Times(trace, Return(t, Allocate, Ok)) + Times(trace, Return(t, Allocate, Again))
         + Times(trace, Return(t, Allocate, Fail)) + Bit(pc.Allocating?)
    && Times(trace, Return(t, Receive, Ok)) == Times(trace, Begin(t, Release)) + Bit(pc.Received?)
    && Times(trace, Begin(t, Release)) == Times(trace, Return(t, Release, Ok)) + Bit(pc.Releasing?)
    && Times(trace, Return(t, Allocate, Ok)) == Times(trace, Begin(t, Send)) + Bit(pc.Allocated?)
    && Times(trace, Begin(t, Send)) == Times(trace, Return(t, Send, Ok)) + Bit(pc.Sending?)
  }

  /** How far Close has come is what has been seen of it. */
  ghost predicate Closes(trace: seq<Event>, t: Tid, pc: Pc) {
    && Times(trace, Signalled(t)) == Bit(pc.CloseWait? || PastWait(pc))
    && Times(trace, Begin(t, End)) == Bit(EndBegun(pc))
    && Times(trace, Return(t, End, Ok)) == Bit(EndBegun(pc) && !pc.Ending?)
    && Times(trace, AdapterClosed(t)) == Bit(pc.CloseReturn? || pc == Finished(true))
  }

  /** A call receives or places one packet at most, and leaves for a reason: closed, failed, turned down, or done. */
  ghost predicate Reasons(s: Sys, t: Tid)
    requires t in s.pcs
  {
    var pc, tr := s.pcs[t], s.trace;
    var got, placed := Times(tr, Return(t, Receive, Ok)), Times(tr, Return(t, Allocate, Ok));
    && got <= 1 && placed <= 1
    && (got > 0 ==> pc.Received? || pc.Releasing? || pc.Leaving? || pc == Finished(false))
    && (placed > 0 ==> pc.Allocated? || pc.Sending? || pc.Leaving? || pc == Finished(false))
    && (pc.Received? || pc.Releasing? ==> got > 0) && (pc.Allocated? || pc.Sending? ==> placed > 0)
    && (pc.Leaving? || pc == Finished(false) ==>
          || s.closed || got > 0 || placed > 0 || Times(tr, Malformed(t)) > 0
          || Times(tr, Return(t, Receive, Fail)) > 0
          || Times(tr, Return(t, Allocate, Again)) > 0 || Times(tr, Return(t, Allocate, Fail)) > 0)
  }

  /** Once the flag is set, there is the closer that has set it. */
  ghost predicate SomeWinner(s: Sys) {
    s.closed ==> exists t :: t in s.pcs && Winner(s.pcs[t])
  }

  ghost predicate Done(s: Sys) {
    && SomeWinner(s)
    && (forall t :: t in s.pcs ==> Brackets(s.trace, t, s.pcs[t]))
    && (forall t :: t in s.pcs ==> Closes(s.trace, t, s.pcs[t]))
    && (forall t :: t in s.pcs ==> Reasons(s, t))
  }

  lemma WinnerStays(s: Sys, t: Tid, c: Choice)
    requires t in s.pcs && SomeWinner(s)
    ensures SomeWinner(Step(s, t, c))
  {
    MoveFacts(s.pcs[t], s.closed, s.running, s.once, t, c);
    FlagFacts(s.pcs[t], s.closed, s.running, s.once, t, c);
    var s' := Step(s, t, c);
    if s.closed {
      var w :| w in s.pcs && Winner(s.pcs[w]);
      assert Winner(s'.pcs[w]);
    } else if s'.closed {
      assert Winner(s'.pcs[t]);
    }
  }

  lemma FlagFacts(pc: Pc, closed: bool, running: nat, once: bool, t: Tid, c: Choice)
    ensures var m := Moved(pc, closed, running, once, t, c); m.closed && !closed ==> Winner(m.pc)
  {}

  lemma DoneFor(s: Sys, t: Tid, c: Choice, u: Tid)
    requires t in s.pcs && u in s.pcs && Inv(s)
    requires Brackets(s.trace, u, s.pcs[u]) && Closes(s.trace, u, s.pcs[u]) && Reasons(s, u)
    ensures var s' := Step(s, t, c);
      Brackets(s'.trace, u, s'.pcs[u]) && Closes(s'.trace, u, s'.pcs[u]) && Reasons(s', u)
  {
    hide Moved, Inv, Brackets, Closes, Reasons;
    OnceFree(s, t);
    if u == t {
      BracketsOwn(s, t, c);
      ClosesOwn(s, t, c);
      ReasonsOwn(s, t, c);
    } else {
      DoneOther(s, t, c, u);
    }
  }

  lemma OnceFree(s: Sys, t: Tid)
    requires t in s.pcs && Inv(s)
    ensures s.pcs[t].CloseOnce? ==> !s.once
  {}

  lemma DoneOther(s: Sys, t: Tid, c: Choice, u: Tid)
    requires t in s.pcs && u in s.pcs && t != u
    requires Brackets(s.trace, u, s.pcs[u]) && Closes(s.trace, u, s.pcs[u]) && Reasons(s, u)
    ensures var s' := Step(s, t, c);
      Brackets(s'.trace, u, s'.pcs[u]) && Closes(s'.trace, u, s'.pcs[u]) && Reasons(s', u)
  {
    hide Moved, Times, Winner, PastWait, EndBegun;
    EventFacts(s.pcs[t], s.closed, s.running, s.once, t, c);
    MoveFacts(s.pcs[t], s.closed, s.running, s.once, t, c);
    var next := Moved(s.pcs[t], s.closed, s.running, s.once, t, c).event;
    forall e: Event | e.t == u ensures Times(Step(s, t, c).trace, e) == Times(s.trace, e) {
      TimesNext(s.trace, next, e);
    }
  }

  function Seen(m: Move, e: Event): nat { Bit(m.event == Some(e)) }

  lemma CallMoves(pc: Pc, closed: bool, running: nat, once: bool, t: Tid, c: Choice)
    ensures var m := Moved(pc, closed, running, once, t, c);
      && Seen(m, Begin(t, Receive)) + Bit(pc.Receiving?) ==
           Seen(m, Return(t, Receive, Ok)) + Seen(m, Return(t, Receive, Again)) + Seen(m, Return(t, Receive, Fail))
           + Bit(m.pc.Receiving?)
      && Seen(m, Begin(t, Allocate)) + Bit(pc.Allocating?) ==
           Seen(m, Return(t, Allocate, Ok)) + Seen(m, Return(t, Allocate, Again))
           + Seen(m, Return(t, Allocate, Fail)) + Bit(m.pc.Allocating?)
  {}

  lemma BracketMoves(pc: Pc, closed: bool, running: nat, once: bool, t: Tid, c: Choice)
    ensures var m := Moved(pc, closed, running, once, t, c);
      && Seen(m, Return(t, Receive, Ok)) + Bit(pc.Received?) == Seen(m, Begin(t, Release)) + Bit(m.pc.Received?)
      && Seen(m, Begin(t, Release)) + Bit(pc.Releasing?) == Seen(m, Return(t, Release, Ok)) + Bit(m.pc.Releasing?)
      && Seen(m, Return(t, Allocate, Ok)) + Bit(pc.Allocated?) == Seen(m, Begin(t, Send)) + Bit(m.pc.Allocated?)
      && Seen(m, Begin(t, Send)) + Bit(pc.Sending?) == Seen(m, Return(t, Send, Ok)) + Bit(m.pc.Sending?)
  {}

  lemma BracketsOwn(s: Sys, t: Tid, c: Choice)
    requires t in s.pcs && Brackets(s.trace, t, s.pcs[t])
    ensures Brackets(Step(s, t, c).trace, t, Step(s, t, c).pcs[t])
  {
    hide Times, Moved;
    CallMoves(s.pcs[t], s.closed, s.running, s.once, t, c);
    BracketMoves(s.pcs[t], s.closed, s.running, s.once, t, c);
    var next := Moved(s.pcs[t], s.closed, s.running, s.once, t, c).event;
    TimesNext(s.trace, next, Begin(t, Receive));
    TimesNext(s.trace, next, Return(t, Receive, Again));
    TimesNext(s.trace, next, Return(t, Receive, Fail));
    TimesNext(s.trace, next, Begin(t, Allocate));
    TimesNext(s.trace, next, Return(t, Allocate, Again));
    TimesNext(s.trace, next, Return(t, Allocate, Fail));
    TimesNext(s.trace, next, Return(t, Receive, Ok));
    TimesNext(s.trace, next, Begin(t, Release));
    TimesNext(s.trace, next, Return(t, Release, Ok));
    TimesNext(s.trace, next, Return(t, Allocate, Ok));
    TimesNext(s.trace, next, Begin(t, Send));
    TimesNext(s.trace, next, Return(t, Send, Ok));
  }

  lemma CloseMoves(pc: Pc, closed: bool, running: nat, once: bool, t: Tid, c: Choice)
    requires pc.CloseOnce? ==> !once
    ensures var m := Moved(pc, closed, running, once, t, c);
      && Seen(m, Signalled(t)) + Bit(pc.CloseWait? || PastWait(pc)) == Bit(m.pc.CloseWait? || PastWait(m.pc))
      && Seen(m, Begin(t, End)) + Bit(EndBegun(pc)) == Bit(EndBegun(m.pc))
      && Seen(m, Return(t, End, Ok)) + Bit(EndBegun(pc) && !pc.Ending?) == Bit(EndBegun(m.pc) && !m.pc.Ending?)
      && Seen(m, AdapterClosed(t)) + Bit(pc.CloseReturn? || pc == Finished(true))
           == Bit(m.pc.CloseReturn? || m.pc == Finished(true))
  {}

  lemma ClosesOwn(s: Sys, t: Tid, c: Choice)
    requires t in s.pcs && (s.pcs[t].CloseOnce? ==> !s.once) && Closes(s.trace, t, s.pcs[t])
    ensures Closes(Step(s, t, c).trace, t, Step(s, t, c).pcs[t])
  {
    hide Times, Moved, PastWait, EndBegun;
    CloseMoves(s.pcs[t], s.closed, s.running, s.once, t, c);
    var next := Moved(s.pcs[t], s.closed, s.running, s.once, t, c).event;
    TimesNext(s.trace, next, Signalled(t));
    TimesNext(s.trace, next, Begin(t, End));
    TimesNext(s.trace, next, Return(t, End, Ok));
    TimesNext(s.trace, next, AdapterClosed(t));
  }

  predicate Left(pc: Pc) { pc.Leaving? || pc == Finished(false) }

  lemma ReasonMoves(pc: Pc, closed: bool, running: nat, once: bool, t: Tid, c: Choice)
    ensures var m := Moved(pc, closed, running, once, t, c);
      && (Seen(m, Return(t, Receive, Ok)) > 0 ==> pc.Receiving? && m.pc.Received?)
      && (Seen(m, Return(t, Allocate, Ok)) > 0 ==> pc.Allocating? && m.pc.Allocated?)
      && (pc.Received? || pc.Releasing? ==> m.pc.Releasing? || m.pc.Leaving?)
      && (pc.Allocated? || pc.Sending? ==> m.pc.Sending? || m.pc.Leaving?)
      && (Left(pc) ==> Left(m.pc))
      && (m.pc.Received? ==> Seen(m, Return(t, Receive, Ok)) > 0)
      && (m.pc.Allocated? ==> Seen(m, Return(t, Allocate, Ok)) > 0)
      && (m.pc.Releasing? ==> pc.Received?) && (m.pc.Sending? ==> pc.Allocated?)
      && (Left(m.pc) ==>
            || Left(pc) || closed || pc.Releasing? || pc.Sending? || Seen(m, Malformed(t)) > 0
            || Seen(m, Return(t, Receive, Fail)) > 0
            || Seen(m, Return(t, Allocate, Again)) > 0 || Seen(m, Return(t, Allocate, Fail)) > 0)
      && (closed ==> m.closed)
  {}

  lemma ReasonsOwn(s: Sys, t: Tid, c: Choice)
    requires t in s.pcs && Reasons(s, t)
    ensures Reasons(Step(s, t, c), t)
  {
    hide Times, Moved;
    ReasonMoves(s.pcs[t], s.closed, s.running, s.once, t, c);
    var next := Moved(s.pcs[t], s.closed, s.running, s.once, t, c).event;
    TimesNext(s.trace, next, Return(t, Receive, Ok));
    TimesNext(s.trace, next, Return(t, Receive, Fail));
    TimesNext(s.trace, next, Return(t, Allocate, Ok));
    TimesNext(s.trace, next, Return(t, Allocate, Again));
    TimesNext(s.trace, next, Return(t, Allocate, Fail));
    TimesNext(s.trace, next, Malformed(t));
  }

  lemma {:induction false} RunDone(ss: seq<Sys>, sched: seq<(Tid, Choice)>, n: nat)
    requires IsRun(ss, sched) && n <= |sched|
    ensures Done(ss[n])
  {
    if n > 0 {
      RunDone(ss, sched, n - 1);
      RunInv(ss, sched, n - 1);
      assert StepAt(ss, sched, n - 1);
      var s, s', t, c := ss[n - 1], ss[n], sched[n - 1].0, sched[n - 1].1;
      WinnerStays(s, t, c);
      hide Step, Inv, IsRun, Brackets, Closes, Reasons, SomeWinner;
      forall u | u in s.pcs
        ensures Brackets(s'.trace, u, s'.pcs[u]) && Closes(s'.trace, u, s'.pcs[u]) && Reasons(s', u)
      {
        DoneFor(s, t, c, u);
      }
    }
  }

  /** A Close that has won and returned has set the event, ended the session and closed the adapter, each once. */
  lemma CloseEndsSession(ss: seq<Sys>, sched: seq<(Tid, Choice)>, n: nat, t: Tid)
    requires IsRun(ss, sched) && n <= |sched| && t in ss[n].pcs && ss[n].pcs[t] == Finished(true)
    ensures Times(ss[n].trace, Signalled(t)) == 1
    ensures Times(ss[n].trace, Begin(t, End)) == 1 && Times(ss[n].trace, Return(t, End, Ok)) == 1
    ensures Times(ss[n].trace, AdapterClosed(t)) == 1
  {
    RunDone(ss, sched, n);
  }

  /** A Close that is turned down leaves the work to one that is not. */
  lemma {:induction false} LoserHasWinner(ss: seq<Sys>, sched: seq<(Tid, Choice)>, n: nat, t: Tid)
    requires IsRun(ss, sched) && n <= |sched| && t in ss[n].pcs && ss[n].pcs[t] == Finished(false)
    requires t in ss[0].pcs && ss[0].pcs[t].CloseStart?
    ensures ss[n].closed && exists w :: w in ss[n].pcs && Winner(ss[n].pcs[w])
  {
    RunDone(ss, sched, n);
    LoserSawFlag(ss, sched, n, t);
  }

  lemma {:induction false} LoserSawFlag(ss: seq<Sys>, sched: seq<(Tid, Choice)>, n: nat, t: Tid)
    requires IsRun(ss, sched) && n <= |sched| && t in ss[0].pcs && ss[0].pcs[t].CloseStart?
    ensures t in ss[n].pcs
    ensures ss[n].pcs[t].CloseStart? || Winner(ss[n].pcs[t]) || (ss[n].pcs[t] == Finished(false) && ss[n].closed)
  {
    if n > 0 {
      LoserSawFlag(ss, sched, n - 1, t);
      assert StepAt(ss, sched, n - 1);
      var s, u, c := ss[n - 1], sched[n - 1].0, sched[n - 1].1;
      MoveFacts(s.pcs[u], s.closed, s.running, s.once, u, c);
    }
  }

  /** A call that has returned has released what it received and sent what it allocated, one packet at most. */
  lemma PacketsAreBracketed(ss: seq<Sys>, sched: seq<(Tid, Choice)>, n: nat, t: Tid)
    requires IsRun(ss, sched) && n <= |sched| && t in ss[n].pcs
    requires ss[n].pcs[t].Leaving? || ss[n].pcs[t].Finished?
    ensures var tr := ss[n].trace;
      && Times(tr, Return(t, Receive, Ok)) == Times(tr, Begin(t, Release)) == Times(tr, Return(t, Release, Ok)) <= 1
      && Times(tr, Return(t, Allocate, Ok)) == Times(tr, Begin(t, Send)) == Times(tr, Return(t, Send, Ok)) <= 1
  {
    RunDone(ss, sched, n);
  }

  /** A call that leaves without a packet has found the tunnel closed, a call failed, or the packet malformed. */
  lemma LeavesForReason(ss: seq<Sys>, sched: seq<(Tid, Choice)>, n: nat, t: Tid)
    requires IsRun(ss, sched) && n <= |sched| && t in ss[n].pcs && ss[n].pcs[t].Leaving?
    requires !ss[n].closed && Times(ss[n].trace, Begin(t, Release)) == 0 && Times(ss[n].trace, Begin(t, Send)) == 0
    ensures var tr := ss[n].trace;
      || Times(tr, Malformed(t)) > 0 || Times(tr, Return(t, Receive, Fail)) > 0
      || Times(tr, Return(t, Allocate, Again)) > 0 || Times(tr, Return(t, Allocate, Fail)) > 0
  {
    RunDone(ss, sched, n);
  }

  /** With the tunnel open, a reader goes on to the session, and a writer exactly if its packet is well formed. */
  lemma OpenCallGoesOn(ss: seq<Sys>, sched: seq<(Tid, Choice)>, n: nat)
    requires IsRun(ss, sched) && n < |sched| && !ss[n].closed
    ensures sched[n].0 in ss[n].pcs && sched[n].0 in ss[n + 1].pcs
    ensures var t, c := sched[n].0, sched[n].1;
      && (ss[n].pcs[t].ReadCheck? ==> ss[n + 1].pcs[t].ReadCall?)
      && (ss[n].pcs[t].WriteCheck? ==>
            if c == Ok then ss[n + 1].pcs[t].WriteCall? && ss[n + 1].trace == ss[n].trace
            else ss[n + 1].pcs[t].Leaving? && ss[n + 1].trace == ss[n].trace + [Malformed(t)])
  {
    assert StepAt(ss, sched, n);
  }

  /** Thread t can go on, whatever the outside world decides. */
  ghost predicate Enabled(s: Sys, t: Tid)
    requires t in s.pcs
  {
    forall c: Choice :: Step(s, t, c).pcs[t] != s.pcs[t]
  }

  /** Every thread can go on until it is finished, but for a closer that waits for a call in progress, which can. */
  lemma NoDeadlock(ss: seq<Sys>, sched: seq<(Tid, Choice)>, n: nat, t: Tid)
    requires IsRun(ss, sched) && n <= |sched| && t in ss[n].pcs && !ss[n].pcs[t].Finished?
    ensures Enabled(ss[n], t) <==> !(ss[n].pcs[t].CloseWait? && ss[n].running > 0)
    ensures !Enabled(ss[n], t) ==> exists u :: u in ss[n].pcs && Counted(ss[n].pcs[u]) && Enabled(ss[n], u)
  {
    var s := ss[n];
    RunInv(ss, sched, n);
    CanMove(s, t);
    if s.running > 0 {
      var u :| u in Group(s);
      CanMove(s, u);
    }
    if Counted(s.pcs[t]) { assert t in Group(s); }
  }

  lemma CanMove(s: Sys, t: Tid)
    requires t in s.pcs && !s.pcs[t].Finished? && (s.pcs[t].Leaving? ==> t in Group(s)) && s.running == |Group(s)|
    ensures Enabled(s, t) <==> !(s.pcs[t].CloseWait? && s.running > 0)
  {
    if s.pcs[t].CloseWait? && s.running > 0 {
      assert Step(s, t, Ok).pcs[t] == s.pcs[t];
    }
  }

  // ---------------------------------------------------------------- callers that come late

  /** On the way in or out of Read or Write, with the session behind the closed check or not reached. */
  predicate Outside(pc: Pc) {
    pc.ReadStart? || pc.ReadCheck? || pc.WriteStart? || pc.WriteCheck? || pc.Leaving? || pc == Finished(false)
  }

  /** A reader or writer that has not passed the check when the flag is set never uses the session. */
  lemma {:induction false} LateCallerLeaves(ss: seq<Sys>, sched: seq<(Tid, Choice)>, n: nat, m: nat, t: Tid)
    requires IsRun(ss, sched) && n <= m <= |sched| && t in ss[n].pcs
    requires ss[n].closed && Outside(ss[n].pcs[t])
    ensures ss[m].closed && t in ss[m].pcs && Outside(ss[m].pcs[t]) && !UsesSession(ss[m].pcs[t])
    decreases m - n
  {
    if n < m {
      LateCallerLeaves(ss, sched, n, m - 1, t);
      assert StepAt(ss, sched, m - 1);
      var s, u, c := ss[m - 1], sched[m - 1].0, sched[m - 1].1;
      MoveFacts(s.pcs[u], s.closed, s.running, s.once, u, c);
    }
  }

  lemma PlayOne(ss: seq<Sys>, sched: seq<(Tid, Choice)>, t: Tid, w: Sys)
    returns (ss': seq<Sys>, sched': seq<(Tid, Choice)>)
    requires IsRun(ss, sched) && t in ss[|sched|].pcs && w == Step(ss[|sched|], t, Ok)
    ensures IsRun(ss', sched') && ss' == ss + [w] && sched' == sched + [(t, Ok)]
  {
    ss', sched' := ss + [w], sched + [(t, Ok)];
    forall i | 0 <= i < |sched'| ensures StepAt(ss', sched', i) {
      if i < |sched| { assert StepAt(ss, sched, i); }
    }
  }

  predicate Starts(pc: Pc) { pc.ReadStart? || pc.WriteStart? }

  /** Step i raises the count from zero while some closer waits for it to be zero. */
  ghost predicate AddsWhileWaiting(ss: seq<Sys>, sched: seq<(Tid, Choice)>, i: nat) {
    && i < |sched| && |ss| == |sched| + 1
    && sched[i].0 in ss[i].pcs && Starts(ss[i].pcs[sched[i].0]) && ss[i].running == 0
    && exists c :: c in ss[i].pcs && ss[i].pcs[c].CloseWait?
  }

  /** A thread that has yet to start has always had; a thread in Close began there. */
  lemma {:induction false} Origins(ss: seq<Sys>, sched: seq<(Tid, Choice)>, i: nat, t: Tid)
    requires IsRun(ss, sched) && i <= |sched| && t in ss[i].pcs
    ensures t in ss[0].pcs
    ensures Starts(ss[i].pcs[t]) ==> Starts(ss[0].pcs[t])
    ensures Winner(ss[i].pcs[t]) ==> ss[0].pcs[t].CloseStart?
    ensures ss[i].pcs[t].CloseStart? ==> ss[0].pcs[t].CloseStart?
  {
    if i > 0 {
      assert StepAt(ss, sched, i - 1);
      Origins(ss, sched, i - 1, t);
      var s, u, c := ss[i - 1], sched[i - 1].0, sched[i - 1].1;
      StartFacts(s.pcs[u], s.closed, s.running, s.once, u, c);
    }
  }

  lemma StartFacts(pc: Pc, closed: bool, running: nat, once: bool, t: Tid, c: Choice)
    ensures var m := Moved(pc, closed, running, once, t, c);
      && !Starts(m.pc) && !m.pc.CloseStart?
      && (Winner(m.pc) ==> Winner(pc) || pc.CloseStart?)
  {}

  /** Which systems can break the rule of sync.WaitGroup: those that close, and read or write, at all. */
  lemma AddWhileWaitingIff(s: Sys)
    requires Initial(s)
    ensures (exists ss, sched, i :: IsRun(ss, sched) && ss[0] == s && AddsWhileWaiting(ss, sched, i))
       <==> ((exists c :: c in s.pcs && s.pcs[c].CloseStart?) && (exists t :: t in s.pcs && Starts(s.pcs[t])))
  {
    if exists ss, sched, i :: IsRun(ss, sched) && ss[0] == s && AddsWhileWaiting(ss, sched, i) {
      var ss: seq<Sys>, sched: seq<(Tid, Choice)>, i: nat :|
        IsRun(ss, sched) && ss[0] == s && AddsWhileWaiting(ss, sched, i);
      var c :| c in ss[i].pcs && ss[i].pcs[c].CloseWait?;
      Origins(ss, sched, i, sched[i].0);
      Origins(ss, sched, i, c);
    }
    if (exists c :: c in s.pcs && s.pcs[c].CloseStart?) && (exists t :: t in s.pcs && Starts(s.pcs[t])) {
      var c :| c in s.pcs && s.pcs[c].CloseStart?;
      var t :| t in s.pcs && Starts(s.pcs[t]);
      var ss, sched := LateAddRun(s, c, t);
      assert AddsWhileWaiting(ss, sched, 4);
    }
  }

  /** The closer goes as far as the wait, and then the caller comes. */
  lemma LateAddRun(s: Sys, c: Tid, t: Tid) returns (ss: seq<Sys>, sched: seq<(Tid, Choice)>)
    requires Initial(s) && c in s.pcs && s.pcs[c].CloseStart? && t in s.pcs && Starts(s.pcs[t])
    ensures IsRun(ss, sched) && |ss| == 6 && |sched| == 5 && ss[0] == s && sched[4].0 == t
    ensures t in ss[4].pcs && Starts(ss[4].pcs[t]) && ss[4].running == 0
    ensures c in ss[4].pcs && ss[4].pcs[c] == CloseWait
  {
    hide IsRun;
    ss, sched := NothingYet(s);
    var s1 := Sys(s.pcs[c := CloseOnce], true, 0, false, []);
    var s2 := Sys(s.pcs[c := CloseStore], true, 0, true, []);
    var s3 := Sys(s.pcs[c := CloseSignal], true, 0, true, []);
    var s4 := Sys(s.pcs[c := CloseWait], true, 0, true, [Signalled(c)]);
    ss, sched := PlayOne(ss, sched, c, s1);
    ss, sched := PlayOne(ss, sched, c, s2);
    ss, sched := PlayOne(ss, sched, c, s3);
    ss, sched := PlayOne(ss, sched, c, s4);
    ss, sched := PlayOne(ss, sched, t, Step(s4, t, Ok));
  }

  /** One reader that comes while the one closer waits. */
  lemma AddWhileWaitingExample() returns (ss: seq<Sys>, sched: seq<(Tid, Choice)>)
    ensures IsRun(ss, sched) && AddsWhileWaiting(ss, sched, 4) && ss[0].pcs == map[1 := CloseStart, 2 := ReadStart]
  {
    ss, sched := LateAddRun(Sys(map[1 := CloseStart, 2 := ReadStart], false, 0, false, []), 1, 2);
  }

  lemma NothingYet(s: Sys) returns (ss: seq<Sys>, sched: seq<(Tid, Choice)>)
    requires Initial(s)
    ensures IsRun(ss, sched) && sched == [] && ss == [s]
  {
    ss, sched := [s], [];
  }

  ghost predicate NoneToStart(s: Sys) { forall t :: t in s.pcs ==> !Starts(s.pcs[t]) }

  /** Closing once nobody is about to begin a call keeps the rule from then on. */
  lemma {:induction false} NoStartsNoAdds(ss: seq<Sys>, sched: seq<(Tid, Choice)>, n: nat, m: nat)
    requires IsRun(ss, sched) && n <= m <= |sched|
    requires NoneToStart(ss[n])
    ensures NoneToStart(ss[m])
    ensures !AddsWhileWaiting(ss, sched, m)
    decreases m - n
  {
    if n < m {
      NoStartsNoAdds(ss, sched, n, m - 1);
      assert StepAt(ss, sched, m - 1);
      var s, u, c := ss[m - 1], sched[m - 1].0, sched[m - 1].1;
      StartFacts(s.pcs[u], s.closed, s.running, s.once, u, c);
    }
  }
}
