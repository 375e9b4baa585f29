/**
  What holds of the trace of any sampling pass, for any list of threads and any
  answers of the kernel.
 */
module SamplingProtocol {
  import opened StackWalk
  import opened ThreadMetadata
  import opened SamplingPass

  // How often thread h is suspended at the end of the trace.
  function Suspended(trace: seq<Event>, h: nat): int {
    multiset(trace)[Suspend(h)] as int - multiset(trace)[Resume(h)] as int
  }

  // How often the kernel has refused to resume it.
  function Refusals(trace: seq<Event>, h: nat): nat { multiset(trace)[Refuse(h)] }

  // Suspensions of thread h for which resume has not been called.
  function Outstanding(trace: seq<Event>, h: nat): int { Suspended(trace, h) - Refusals(trace, h) }

  // References to a port the process holds more than before.
  function NetReferences(trace: seq<Event>, p: nat): int {
    multiset(trace)[Acquire(p)] as int - multiset(trace)[Release(p)] as int
  }

  function Reports(trace: seq<Event>, h: nat): nat {
    if trace == [] then 0
    else Reports(trace[..|trace| - 1], h) +
         if trace[|trace| - 1].Report? && trace[|trace| - 1].thread == h then 1 else 0
  }

  // Only walking the stack is allowed before a suspended thread is resumed.
  predicate NeedsAllRunning(e: Event) { !e.Walk? && !e.Resume? && !e.Refuse? }

  // The suspension protocol as an automaton: who is between suspend and resume.
  datatype Held = Nobody | One(thread: nat) | Broken

  function Advance(st: Held, e: Event): Held {
    match st
    case Nobody => if e.Suspend? then One(e.thread) else if e.Walk? || e.Resume? || e.Refuse? then Broken else Nobody
    case One(h) => if e == Walk(h) then st else if e == Resume(h) || e == Refuse(h) then Nobody else Broken
    case Broken => Broken
  }

  function Play(st: Held, trace: seq<Event>): Held {
    if trace == [] then st else Advance(Play(st, trace[..|trace| - 1]), trace[|trace| - 1])
  }

  lemma {:induction false} PlayConcat(st: Held, t: seq<Event>, u: seq<Event>)
    ensures Play(st, t + u) == Play(Play(st, t), u)
  {
    if u == [] {
      assert t + u == t;
    } else {
      assert (t + u)[..|t + u| - 1] == t + u[..|u| - 1];
      PlayConcat(st, t, u[..|u| - 1]);
    }
  }

  predicate Calm(t: seq<Event>) { forall e :: e in t ==> !e.Suspend? && !e.Walk? && !e.Resume? && !e.Refuse? }

  lemma {:induction false} CalmPlay(t: seq<Event>)
    requires Calm(t)
    ensures Play(Nobody, t) == Nobody
  {
    if t != [] {
      var p := t[..|t| - 1];
      assert t[|t| - 1] in t && forall e :: e in p ==> e in t;
      CalmPlay(p);
    }
  }

  // ----- every pass plays through the automaton

  lemma WalkPlays(a: Arch, t: Thread)
    ensures Play(Nobody, WalkCalls(a, t)) == Nobody
  {
    if t.suspends {
      var core := [Suspend(t.port), Walk(t.port), ResumeCall(t)];
      var one := [Suspend(t.port)];
      var two := one + [Walk(t.port)];
      assert one[..0] == [] && two[..1] == one && core[..2] == two;
      assert Play(Nobody, one) == One(t.port);
      assert Play(Nobody, two) == One(t.port);
      var tail := if Collectable(a, t) then [Report(t.port, false, Map(a, StackOf(a, t)))] else [];
      CalmPlay(tail);
      PlayConcat(Nobody, core, tail);
      assert WalkCalls(a, t) == core + tail;
    }
  }

  lemma VisitPlays(a: Arch, es: seq<Entry>, t: Thread)
    ensures Play(Nobody, Visit(a, es, t)) == Nobody
  {
    hide WalkCalls, Looked;
    if IsIdle(t) {
      CalmPlay(Visit(a, es, t));
    } else {
      CalmPlay(MetadataCalls(es, t));
      CalmPlay(MetadataCalls(es, t) + BoundsCalls(es, t));
      WalkPlays(a, t);
      PlayConcat(Nobody, MetadataCalls(es, t) + BoundsCalls(es, t), WalkCalls(a, t));
    }
  }

  lemma {:induction false} VisitsPlay(a: Arch, es: seq<Entry>, ts: seq<Thread>)
    ensures Play(Nobody, Visits(a, es, ts)) == Nobody
  {
    if ts != [] {
      var p := ts[..|ts| - 1];
      VisitsPlay(a, es, p);
      VisitPlays(a, CacheAfter(es, p), ts[|ts| - 1]);
      PlayConcat(Nobody, Visits(a, es, p), Visit(a, CacheAfter(es, p), ts[|ts| - 1]));
    }
  }

  lemma {:induction false} PortsAreCalm(ts: seq<Thread>, current: nat)
    ensures Calm(Acquires(ts)) && Calm(OwnReleases(ts, current)) && Calm(Releases(ts))
  {
    if ts != [] { PortsAreCalm(ts[..|ts| - 1], current); }
  }

  lemma PassPlays(a: Arch, es: seq<Entry>, ts: seq<Thread>, current: nat)
    ensures Play(Nobody, Pass(a, es, ts, current)) == Nobody
  {
    hide Visits, Acquires, OwnReleases, Releases, Others;
    var others := Others(ts, current);
    PortsAreCalm(ts, current);
    PortsAreCalm(others, current);
    CalmPlay(Acquires(ts) + OwnReleases(ts, current));
    VisitsPlay(a, es, others);
    CalmPlay(Releases(others));
    PlayConcat(Nobody, Acquires(ts) + OwnReleases(ts, current), Visits(a, es, others));
    PlayConcat(Nobody, Acquires(ts) + OwnReleases(ts, current) + Visits(a, es, others), Releases(others));
  }

  // ----- what the automaton guarantees, in terms of counting

  lemma {:induction false} PlayCounts(t: seq<Event>, h: nat)
    requires Play(Nobody, t) != Broken
    ensures Outstanding(t, h) == if Play(Nobody, t) == One(h) then 1 else 0
  {
    if t != [] {
      PlayCounts(t[..|t| - 1], h);
      OneMoreEvent(t, h);
      hide Outstanding;
    }
  }

  lemma OneMoreEvent(t: seq<Event>, h: nat)
    requires t != []
    ensures Outstanding(t, h) == Outstanding(t[..|t| - 1], h) +
            (if t[|t| - 1] == Suspend(h) then 1 else if t[|t| - 1] == Resume(h) || t[|t| - 1] == Refuse(h) then -1 else 0)
  {
    assert t == t[..|t| - 1] + [t[|t| - 1]];
  }

  lemma {:induction false} PlayPrefix(t: seq<Event>, k: nat)
    requires k <= |t| && Play(Nobody, t) != Broken
    ensures Play(Nobody, t[..k]) != Broken
  {
    if k < |t| {
      assert t[..|t| - 1][..k] == t[..k];
      PlayPrefix(t[..|t| - 1], k);
    } else {
      assert t[..k] == t;
    }
  }

  /** The suspend protocol of a whole pass, at every point of its trace: at most one
      thread is between suspend and resume, nothing but the walk happens while one is,
      and each successful suspend is followed by exactly one call of resume.  So a
      thread is suspended exactly as often as it is in hand or the kernel has refused
      to resume it, and in the end every suspension is undone if and only if the
      kernel refused none. */
  lemma SuspensionsAreBracketed(a: Arch, es: seq<Entry>, ts: seq<Thread>, current: nat, k: nat, h: nat, g: nat)
    requires k <= |Pass(a, es, ts, current)|
    ensures var t := Pass(a, es, ts, current);
            && 0 <= Outstanding(t[..k], h) <= 1
            && (h != g ==> Outstanding(t[..k], h) + Outstanding(t[..k], g) <= 1)
            && (k < |t| && NeedsAllRunning(t[k]) ==> Outstanding(t[..k], h) == 0)
            && Outstanding(t, h) == 0
            && (Suspended(t, h) == 0 <==> Refuse(h) !in t)
  {
    hide Pass;
    var t := Pass(a, es, ts, current);
    PassPlays(a, es, ts, current);
    PlayPrefix(t, k);
    PlayCounts(t[..k], h);
    PlayCounts(t[..k], g);
    PlayCounts(t, h);
    if k < |t| {
      PlayPrefix(t, k + 1);
      assert t[..k + 1][..k] == t[..k];
    }
  }

  /** In particular, when the kernel refuses no resume no thread stays suspended, and
      everything but the walk happens with all threads running. */
  lemma NobodyStaysSuspended(a: Arch, es: seq<Entry>, ts: seq<Thread>, current: nat, k: nat, h: nat)
    requires k < |Pass(a, es, ts, current)| && forall t :: t in ts ==> t.resumes
    ensures var t := Pass(a, es, ts, current);
            && 0 <= Suspended(t[..k], h) <= 1 && Suspended(t, h) == 0
            && (NeedsAllRunning(t[k]) ==> Suspended(t[..k], h) == 0)
  {
    hide Pass;
    var t := Pass(a, es, ts, current);
    SuspensionsAreBracketed(a, es, ts, current, k, h, h);
    PassRefuses(a, es, ts, current);
    assert Refuse(h) !in t[..k];
  }

  // A listed thread that a pass over it alone suspends.
  predicate Walked(t: Thread, current: nat) {
    t.port != current && !IsIdle(t) && Looked([], t.port, AnswerOf(t)).threadID != 0 && t.suspends
  }

  lemma PortsOfOne(t: Thread, current: nat)
    requires t.port != current
    ensures Acquires([t]) == [Acquire(t.port)] && Releases([t]) == [Release(t.port)]
    ensures OwnReleases([t], current) == [] && Others([t], current) == [t]
  {
    var none: seq<Thread> := [];
    assert [t][..0] == none && [t][0] == t;
    assert Others(none, current) == none && OwnReleases(none, current) == [] && Acquires(none) == [] && Releases(none) == [];
  }

  lemma VisitsOfOne(a: Arch, t: Thread)
    ensures Visits(a, [], [t]) == Visit(a, [], t)
  {
    hide Visit, VisitCache;
    var none: seq<Thread> := [];
    assert [t][..0] == none && [t][0] == t;
    assert CacheAfter([], none) == [] && Visits(a, [], none) == [];
  }

  lemma PassOverOne(a: Arch, t: Thread, current: nat)
    requires Walked(t, current)
    ensures Pass(a, [], [t], current) ==
            ([Acquire(t.port)] + (MetadataCalls([], t) + BoundsCalls([], t))) + WalkCalls(a, t) + [Release(t.port)]
  {
    hide WalkCalls, Looked, MetadataCalls, BoundsCalls, Acquires, Releases, OwnReleases, Others, Visits;
    PortsOfOne(t, current);
    VisitsOfOne(a, t);
    Regroup([Acquire(t.port)], MetadataCalls([], t) + BoundsCalls([], t), WalkCalls(a, t));
  }

  lemma Regroup<T>(x: seq<T>, y: seq<T>, z: seq<T>)
    ensures x + (y + z) == x + y + z && x + [] == x
  {}

  lemma RefusalsConcat(t: seq<Event>, u: seq<Event>, h: nat)
    ensures Refusals(t + u, h) == Refusals(t, h) + Refusals(u, h)
  {}

  lemma CalmRefuses(t: seq<Event>, h: nat)
    requires Calm(t)
    ensures Refusals(t, h) == 0
  {
    assert Refuse(h) !in t;
  }

  lemma WalkRefuses(a: Arch, t: Thread)
    requires t.suspends
    ensures Refusals(WalkCalls(a, t), t.port) == if t.resumes then 0 else 1
  {
    hide Collectable, StackOf, Map;
    var core := [Suspend(t.port), Walk(t.port), ResumeCall(t)];
    var tail := if Collectable(a, t) then [Report(t.port, false, Map(a, StackOf(a, t)))] else [];
    assert WalkCalls(a, t) == core + tail;
    RefusalsConcat(core, tail, t.port);
    CalmRefuses(tail, t.port);
  }

  lemma RefusalsWithin(x: seq<Event>, y: seq<Event>, z: seq<Event>, h: nat)
    requires Calm(x) && Calm(z)
    ensures Refusals(x + y + z, h) == Refusals(y, h)
  {
    hide Refusals, Calm;
    RefusalsConcat(x, y, h);
    RefusalsConcat(x + y, z, h);
    CalmRefuses(x, h);
    CalmRefuses(z, h);
  }

  lemma CallsAreCalm(t: Thread)
    ensures Calm([Acquire(t.port)] + (MetadataCalls([], t) + BoundsCalls([], t))) && Calm([Release(t.port)])
  {
    hide Known;
  }

  /** A thread that a pass suspends is left suspended if and only if the kernel refuses
      to resume it. */
  lemma RefusedThreadStaysSuspended(a: Arch, t: Thread, current: nat)
    requires Walked(t, current)
    ensures Suspended(Pass(a, [], [t], current), t.port) == if t.resumes then 0 else 1
  {
    PassOverOne(a, t, current);
    CallsAreCalm(t);
    hide Pass, WalkCalls, MetadataCalls, BoundsCalls, Refusals, Calm;
    SuspensionsAreBracketed(a, [], [t], current, 0, t.port, t.port);
    RefusalsWithin([Acquire(t.port)] + (MetadataCalls([], t) + BoundsCalls([], t)), WalkCalls(a, t), [Release(t.port)], t.port);
    WalkRefuses(a, t);
  }

  /** There is such a thread, whatever its port. */
  lemma SomeThreadIsWalked(port: nat, current: nat) returns (t: Thread)
    requires port != 0 && port != current
    ensures t.port == port && !t.resumes && Walked(t, current)
  {
    t := Thread(port, true, false, true, true, Answer(31, "worker"), 0x4000, 0x3000, true, false, true,
                Context(0x100, 0, 0x2000), Memory(f => true, f => 0));
    assert !IsSentryOwned(t.answer.name) by { assert t.answer.name[0] == 'w'; }
  }

  predicate NoRefusal(t: seq<Event>) { forall e :: e in t ==> !e.Refuse? }

  lemma PassRefuses(a: Arch, es: seq<Entry>, ts: seq<Thread>, current: nat)
    requires forall t :: t in ts ==> t.resumes
    ensures NoRefusal(Pass(a, es, ts, current))
  {
    hide Visits, Acquires, OwnReleases, Releases, Others;
    PortsAreCalm(ts, current);
    PortsAreCalm(Others(ts, current), current);
    OthersDiffer(ts, current);
    VisitsRefuse(a, es, Others(ts, current));
  }

  lemma {:induction false} VisitsRefuse(a: Arch, es: seq<Entry>, ts: seq<Thread>)
    requires forall t :: t in ts ==> t.resumes
    ensures NoRefusal(Visits(a, es, ts))
  {
    hide Visit;
    if ts != [] {
      var p := ts[..|ts| - 1];
      VisitsRefuse(a, es, p);
      VisitRefuses(a, CacheAfter(es, p), ts[|ts| - 1]);
    }
  }

  lemma VisitRefuses(a: Arch, es: seq<Entry>, t: Thread)
    requires t.resumes
    ensures NoRefusal(Visit(a, es, t))
  {
    hide Looked, Collectable, StackOf, Map;
  }

  // ----- port references

  lemma {:induction false} NetConcat(t: seq<Event>, u: seq<Event>, p: nat)
    ensures NetReferences(t + u, p) == NetReferences(t, p) + NetReferences(u, p)
  {
    assert multiset(t + u) == multiset(t) + multiset(u);
  }

  // What listing one more thread adds to the events about ports.
  lemma OneMorePort(ts: seq<Thread>, current: nat)
    requires ts != []
    ensures var q, t, own := ts[..|ts| - 1], ts[|ts| - 1], ts[|ts| - 1].port == current;
            && Acquires(ts) == Acquires(q) + [Acquire(t.port)]
            && OwnReleases(ts, current) == OwnReleases(q, current) + (if own then [Release(current)] else [])
            && Releases(Others(ts, current)) == Releases(Others(q, current)) + (if own then [] else [Release(t.port)])
  {
    var q, t, o := ts[..|ts| - 1], ts[|ts| - 1], Others(ts, current);
    if t.port == current {
      assert o == Others(q, current);
    } else {
      assert o[..|o| - 1] == Others(q, current) && o[|o| - 1] == t;
    }
  }

  lemma {:induction false} PortBalance(ts: seq<Thread>, current: nat, p: nat)
    ensures NetReferences(Acquires(ts), p) + NetReferences(OwnReleases(ts, current), p) +
            NetReferences(Releases(Others(ts, current)), p) == 0
  {
    if ts != [] {
      var q, t := ts[..|ts| - 1], ts[|ts| - 1];
      PortBalance(q, current, p);
      OneMorePort(ts, current);
      hide Acquires, OwnReleases, Releases, Others;
      NetConcat(Acquires(q), [Acquire(t.port)], p);
      NetConcat(OwnReleases(q, current), if t.port == current then [Release(current)] else [], p);
      NetConcat(Releases(Others(q, current)), if t.port == current then [] else [Release(t.port)], p);
    }
  }

  predicate NoPorts(t: seq<Event>) { forall e :: e in t ==> !e.Acquire? && !e.Release? }

  lemma VisitTouchesNoPorts(a: Arch, es: seq<Entry>, t: Thread)
    ensures NoPorts(Visit(a, es, t))
  {
    hide Looked, Collectable, StackOf, Map;
  }

  lemma {:induction false} VisitsTouchNoPorts(a: Arch, es: seq<Entry>, ts: seq<Thread>)
    ensures NoPorts(Visits(a, es, ts))
  {
    hide Visit;
    if ts != [] {
      var p := ts[..|ts| - 1];
      VisitsTouchNoPorts(a, es, p);
      VisitTouchesNoPorts(a, CacheAfter(es, p), ts[|ts| - 1]);
    }
  }

  /** Over a whole pass every port reference the kernel handed out is given back. */
  lemma PortsAreBalanced(a: Arch, es: seq<Entry>, ts: seq<Thread>, current: nat, p: nat)
    ensures NetReferences(Pass(a, es, ts, current), p) == 0
  {
    hide Visits, Acquires, OwnReleases, Releases, Others;
    var others := Others(ts, current);
    var t1, t2, t3, t4 := Acquires(ts), OwnReleases(ts, current), Visits(a, es, others), Releases(others);
    VisitsTouchNoPorts(a, es, others);
    assert Acquire(p) !in t3 && Release(p) !in t3;
    NetConcat(t1, t2, p);
    NetConcat(t1 + t2, t3, p);
    NetConcat(t1 + t2 + t3, t4, p);
    PortBalance(ts, current, p);
  }

  // ----- one report per thread

  lemma {:induction false} ReportsConcat(t: seq<Event>, u: seq<Event>, h: nat)
    ensures Reports(t + u, h) == Reports(t, h) + Reports(u, h)
  {
    if u == [] {
      assert t + u == t;
    } else {
      assert (t + u)[..|t + u| - 1] == t + u[..|u| - 1];
      ReportsConcat(t, u[..|u| - 1], h);
    }
  }

  lemma {:induction false} NoReports(t: seq<Event>, h: nat)
    requires forall e :: e in t ==> !e.Report?
    ensures Reports(t, h) == 0
  {
    if t != [] {
      assert t[|t| - 1] in t && forall e :: e in t[..|t| - 1] ==> e in t;
      NoReports(t[..|t| - 1], h);
    }
  }

  lemma VisitReports(a: Arch, es: seq<Entry>, t: Thread, h: nat)
    ensures Reports(Visit(a, es, t), h) <= if t.port == h then 1 else 0
  {
    hide Looked, Collectable, StackOf, Map;
    var calls := MetadataCalls(es, t) + BoundsCalls(es, t);
    NoReports(MetadataCalls(es, t), h);
    NoReports(calls, h);
    ReportsConcat(calls, WalkCalls(a, t), h);
    var core := [Suspend(t.port), Walk(t.port), ResumeCall(t)];
    NoReports(core, h);
    if t.suspends {
      var tail := if Collectable(a, t) then [Report(t.port, false, Map(a, StackOf(a, t)))] else [];
      ReportsConcat(core, tail, h);
      assert tail == [] || tail[..0] == [];
    }
    assert Visit(a, es, t) == [Report(t.port, true, [])] || Visit(a, es, t) == MetadataCalls(es, t) ||
           Visit(a, es, t) == calls + WalkCalls(a, t);
    assert [Report(t.port, true, [])][..0] == [];
  }

  function Listed(ts: seq<Thread>, h: nat): nat {
    if ts == [] then 0 else Listed(ts[..|ts| - 1], h) + if ts[|ts| - 1].port == h then 1 else 0
  }

  lemma {:induction false} VisitsReport(a: Arch, es: seq<Entry>, ts: seq<Thread>, h: nat)
    ensures Reports(Visits(a, es, ts), h) <= Listed(ts, h)
  {
    if ts != [] {
      var p := ts[..|ts| - 1];
      VisitsReport(a, es, p, h);
      VisitReports(a, CacheAfter(es, p), ts[|ts| - 1], h);
      ReportsConcat(Visits(a, es, p), Visit(a, CacheAfter(es, p), ts[|ts| - 1]), h);
    }
  }

  lemma {:induction false} OthersListed(ts: seq<Thread>, current: nat, h: nat)
    ensures Listed(Others(ts, current), h) == if h == current then 0 else Listed(ts, h)
  {
    if ts != [] {
      var q, o := ts[..|ts| - 1], Others(ts, current);
      OthersListed(q, current, h);
      if ts[|ts| - 1].port != current {
        assert o[..|o| - 1] == Others(q, current);
      } else {
        assert o == Others(q, current);
      }
    }
  }

  lemma {:induction false} PortsReportNothing(ts: seq<Thread>, current: nat)
    ensures forall e :: e in Acquires(ts) || e in OwnReleases(ts, current) || e in Releases(ts) ==> e.Acquire? || e.Release?
  {
    if ts != [] { PortsReportNothing(ts[..|ts| - 1], current); }
  }

  /** Each listed thread is reported at most once, and the sampling thread never. */
  lemma AtMostOneReportEach(a: Arch, es: seq<Entry>, ts: seq<Thread>, current: nat, h: nat)
    ensures Reports(Pass(a, es, ts, current), h) <= if h == current then 0 else Listed(ts, h)
  {
    hide Visits, Acquires, OwnReleases, Releases, Others;
    var others := Others(ts, current);
    PortsReportNothing(ts, current);
    PortsReportNothing(others, current);
    var ports := Acquires(ts) + OwnReleases(ts, current);
    NoReports(ports, h);
    NoReports(Releases(others), h);
    ReportsConcat(ports, Visits(a, es, others), h);
    ReportsConcat(ports + Visits(a, es, others), Releases(others), h);
    VisitsReport(a, es, others, h);
    OthersListed(ts, current, h);
  }

  // ----- exactly which reports, in the kernel's answers

  // The profiler's own thread: found so before, or now for the first time.
  predicate Own(es: seq<Entry>, t: Thread) {
    if exists i :: 0 <= i < |es| && es[i].handle == t.port then es[Find(es, t.port)].metadata.threadID == 0
    else t.pthread && t.answer.priority != -1 && "io.sentry" <= t.answer.name
  }

  // Does the kernel describe the thread as running?
  predicate Runs(t: Thread) { t.port != 0 && t.infoOk && !t.idleFlag && t.running }

  function StackStart(a: Arch, t: Thread): nat { t.stackTop % Words(a) }

  function StackEnd(a: Arch, t: Thread): nat { (StackStart(a, t) - t.stackSize) % Words(a) }

  // Can its whole stack be had?
  predicate Whole(a: Arch, t: Thread) {
    var b := Bounds(StackStart(a, t), StackEnd(a, t));
    && t.pthread && 0 < b.end < b.start && t.stateOk
    && IsValidFrame(a, b, t.context.fp) && Complete(a, t.memory, b, t.context.fp)
    && |FullStack(a, t.memory, b, t.context, t.context.fp)| <= 128
  }

  function WholeStackOf(a: Arch, t: Thread): seq<nat> {
    FullStack(a, t.memory, Bounds(StackStart(a, t), StackEnd(a, t)), t.context, t.context.fp)
  }

  // What is to be reported of one thread that is not the sampling one.
  function DueOf(a: Arch, es: seq<Entry>, t: Thread): seq<Event> {
    if !Runs(t) then [Report(t.port, true, [])]
    else if !Own(es, t) && t.suspends && Whole(a, t) then
      [Report(t.port, false, seq(|WholeStackOf(a, t)|, i requires 0 <= i < |WholeStackOf(a, t)| =>
                                   PreviousInstruction(a, WholeStackOf(a, t)[i])))]
    else []
  }

  // And which thread is to be suspended.
  function HeldOf(es: seq<Entry>, t: Thread): seq<Event> {
    if Runs(t) && !Own(es, t) && t.suspends then [Suspend(t.port)] else []
  }

  function Due(a: Arch, es: seq<Entry>, ts: seq<Thread>, current: nat): seq<Event> {
    if ts == [] then []
    else
      var p, t := ts[..|ts| - 1], ts[|ts| - 1];
      Due(a, es, p, current) + if t.port == current then [] else DueOf(a, CacheAfter(es, Others(p, current)), t)
  }

  function ToHold(es: seq<Entry>, ts: seq<Thread>, current: nat): seq<Event> {
    if ts == [] then []
    else
      var p, t := ts[..|ts| - 1], ts[|ts| - 1];
      ToHold(es, p, current) + if t.port == current then [] else HeldOf(CacheAfter(es, Others(p, current)), t)
  }

  function ToLookUp(ts: seq<Thread>, current: nat): seq<Event> {
    if ts == [] then []
    else
      var p, t := ts[..|ts| - 1], ts[|ts| - 1];
      ToLookUp(p, current) + if t.port != current && Runs(t) then [Lookup(t.port)] else []
  }

  function Only(t: seq<Event>, keep: Event -> bool): seq<Event> {
    if t == [] then [] else Only(t[..|t| - 1], keep) + if keep(t[|t| - 1]) then [t[|t| - 1]] else []
  }

  predicate IsReport(e: Event) { e.Report? }
  predicate IsSuspend(e: Event) { e.Suspend? }
  predicate IsLookup(e: Event) { e.Lookup? }

  lemma {:induction false} OnlyConcat(t: seq<Event>, u: seq<Event>, keep: Event -> bool)
    ensures Only(t + u, keep) == Only(t, keep) + Only(u, keep)
  {
    if u == [] {
      assert t + u == t;
    } else {
      var v := u[..|u| - 1];
      assert (t + u)[..|t + u| - 1] == t + v && (t + u)[|t + u| - 1] == u[|u| - 1];
      OnlyConcat(t, v, keep);
    }
  }

  lemma {:induction false} OnlyNone(t: seq<Event>, keep: Event -> bool)
    requires forall e :: e in t ==> !keep(e)
    ensures Only(t, keep) == []
  {
    if t != [] {
      assert t[|t| - 1] in t && forall e :: e in t[..|t| - 1] ==> e in t;
      OnlyNone(t[..|t| - 1], keep);
    }
  }

  lemma OnlyOne(e: Event, keep: Event -> bool)
    ensures Only([e], keep) == if keep(e) then [e] else []
  {
    assert [e][..0] == [] && [e][0] == e && Only([], keep) == [];
  }

  // What a walk reports at the end.
  function StackReport(a: Arch, t: Thread): seq<Event> {
    if Collectable(a, t) then [Report(t.port, false, Map(a, StackOf(a, t)))] else []
  }

  lemma WalkIn(a: Arch, t: Thread)
    ensures Only(WalkCalls(a, t), IsReport) == if t.suspends then StackReport(a, t) else []
    ensures Only(WalkCalls(a, t), IsSuspend) == if t.suspends then [Suspend(t.port)] else []
    ensures Only(WalkCalls(a, t), IsLookup) == []
  {
    hide Collectable, StackOf, Map, Only;
    OnlyNone(WalkCalls(a, t), IsLookup);
    if t.suspends {
      var head, rest := [Suspend(t.port)], [Walk(t.port), ResumeCall(t)];
      assert head + rest == [Suspend(t.port), Walk(t.port), ResumeCall(t)];
      OnlyNone(head + rest, IsReport);
      OnlyConcat(head + rest, StackReport(a, t), IsReport);
      OnlyOne(Suspend(t.port), IsSuspend);
      OnlyNone(rest + StackReport(a, t), IsSuspend);
      OnlyConcat(head, rest + StackReport(a, t), IsSuspend);
      assert WalkCalls(a, t) == head + (rest + StackReport(a, t));
      if Collectable(a, t) { OnlyOne(StackReport(a, t)[0], IsReport); } else { OnlyNone([], IsReport); }
    } else {
      OnlyNone([], IsReport);
      OnlyNone([], IsSuspend);
    }
  }

  lemma CollectableIsWhole(a: Arch, t: Thread)
    ensures Collectable(a, t) <==> Whole(a, t)
    ensures t.pthread ==> StackOf(a, t) == WholeStackOf(a, t)
  {
    hide Complete, FullStack, IsValidFrame;
    assert Words(a) == WordLimit(a);
  }

  lemma OwnIsOwn(es: seq<Entry>, t: Thread)
    requires t.port != 0
    ensures Known(es, t.port) <==> exists i :: 0 <= i < |es| && es[i].handle == t.port
    ensures Looked(es, t.port, AnswerOf(t)).threadID == 0 <==> Own(es, t)
  {
    if Known(es, t.port) { assert es[Find(es, t.port)].handle == t.port; }
  }

  // The report of a whole stack, in the kernel's words.
  lemma StackReportIs(a: Arch, t: Thread)
    ensures StackReport(a, t) ==
            if Whole(a, t) then
              [Report(t.port, false, seq(|WholeStackOf(a, t)|, i requires 0 <= i < |WholeStackOf(a, t)| =>
                                           PreviousInstruction(a, WholeStackOf(a, t)[i])))]
            else []
  {
    hide StackOf, WholeStackOf, Collectable, PreviousInstruction;
    CollectableIsWhole(a, t);
    WholeHasThread(a, t);
    if Whole(a, t) {
      assert StackOf(a, t) == WholeStackOf(a, t);
      assert Map(a, StackOf(a, t)) == seq(|WholeStackOf(a, t)|, i requires 0 <= i < |WholeStackOf(a, t)| =>
                                            PreviousInstruction(a, WholeStackOf(a, t)[i]));
    }
  }

  lemma VisitIsDue(a: Arch, es: seq<Entry>, t: Thread)
    ensures Only(Visit(a, es, t), IsReport) == DueOf(a, es, t)
    ensures Only(Visit(a, es, t), IsSuspend) == HeldOf(es, t)
    ensures Only(Visit(a, es, t), IsLookup) == if Runs(t) then [Lookup(t.port)] else []
  {
    hide WalkCalls, Whole, WholeStackOf, StackReport, Looked, Own, Only;
    if !Runs(t) {
      var e := Report(t.port, true, []);
      OnlyOne(e, IsReport);
      OnlyOne(e, IsSuspend);
      OnlyOne(e, IsLookup);
    } else {
      OwnIsOwn(es, t);
      WalkIn(a, t);
      StackReportIs(a, t);
      CallsIn(es, t);
      var calls := MetadataCalls(es, t) + BoundsCalls(es, t);
      OnlyConcat(calls, WalkCalls(a, t), IsReport);
      OnlyConcat(calls, WalkCalls(a, t), IsSuspend);
      OnlyConcat(calls, WalkCalls(a, t), IsLookup);
    }
  }

  // The lookup is all that the calls before the walk contribute.
  lemma CallsIn(es: seq<Entry>, t: Thread)
    ensures var m := MetadataCalls(es, t);
            && Only(m, IsReport) == Only(m, IsSuspend) == [] && Only(m, IsLookup) == [Lookup(t.port)]
            && var c := m + BoundsCalls(es, t);
               Only(c, IsReport) == Only(c, IsSuspend) == [] && Only(c, IsLookup) == [Lookup(t.port)]
  {
    hide Only;
    var m, b := MetadataCalls(es, t), BoundsCalls(es, t);
    OnlyNone(m, IsReport);
    OnlyNone(m, IsSuspend);
    OnlyNone(m + b, IsReport);
    OnlyNone(m + b, IsSuspend);
    OnlyOne(Lookup(t.port), IsLookup);
    OnlyNone(m[1..], IsLookup);
    OnlyConcat([Lookup(t.port)], m[1..], IsLookup);
    assert m == [Lookup(t.port)] + m[1..];
    OnlyNone(b, IsLookup);
    OnlyConcat(m, b, IsLookup);
  }

  lemma WholeHasThread(a: Arch, t: Thread)
    ensures Whole(a, t) ==> t.pthread
  {}

  lemma {:induction false} VisitsAreDue(a: Arch, es: seq<Entry>, ts: seq<Thread>, current: nat)
    ensures Only(Visits(a, es, Others(ts, current)), IsReport) == Due(a, es, ts, current)
    ensures Only(Visits(a, es, Others(ts, current)), IsSuspend) == ToHold(es, ts, current)
    ensures Only(Visits(a, es, Others(ts, current)), IsLookup) == ToLookUp(ts, current)
  {
    hide Visit, Visits, DueOf, HeldOf, CacheAfter, Only;
    if ts == [] {
      NoVisits(a, es);
    } else {
      var p, t := ts[..|ts| - 1], ts[|ts| - 1];
      VisitsAreDue(a, es, p, current);
      VisitsSplit(a, es, ts, current);
      if t.port == current {
        NothingDue(a, es, ts, current);
      } else {
        var before, here := Visits(a, es, Others(p, current)), Visit(a, CacheAfter(es, Others(p, current)), t);
        hide Others;
        VisitIsDue(a, CacheAfter(es, Others(p, current)), t);
        OnlyConcat(before, here, IsReport);
        OnlyConcat(before, here, IsSuspend);
        OnlyConcat(before, here, IsLookup);
      }
    }
  }

  lemma NothingDue(a: Arch, es: seq<Entry>, ts: seq<Thread>, current: nat)
    requires ts != [] && ts[|ts| - 1].port == current
    ensures var p := ts[..|ts| - 1];
            && Due(a, es, ts, current) == Due(a, es, p, current) && ToHold(es, ts, current) == ToHold(es, p, current)
            && ToLookUp(ts, current) == ToLookUp(p, current)
  {}

  lemma NoVisits(a: Arch, es: seq<Entry>)
    ensures Visits(a, es, []) == [] && Only([], IsReport) == Only([], IsSuspend) == Only([], IsLookup) == []
  {}

  lemma VisitsSplit(a: Arch, es: seq<Entry>, ts: seq<Thread>, current: nat)
    requires ts != []
    ensures var p, t := ts[..|ts| - 1], ts[|ts| - 1];
            if t.port == current then Visits(a, es, Others(ts, current)) == Visits(a, es, Others(p, current))
            else Visits(a, es, Others(ts, current)) ==
                 Visits(a, es, Others(p, current)) + Visit(a, CacheAfter(es, Others(p, current)), t)
  {
    hide Visit, CacheAfter;
    var p, t, o := ts[..|ts| - 1], ts[|ts| - 1], Others(ts, current);
    if t.port == current {
      assert o == Others(p, current);
    } else {
      assert o[..|o| - 1] == Others(p, current) && o[|o| - 1] == t;
    }
  }

  /** Exactly which reports a pass makes, and which threads it suspends, in listing
      order and in terms of the kernel's answers: one idle report for each other thread
      that does not run; one report with the whole stack for each running one that is
      not the profiler's own, lets itself be suspended and has a stack that can be had
      whole; none for any other.  Every running thread is looked up once, and suspended
      if it is not the profiler's own and the kernel agrees. */
  lemma ReportsAreDue(a: Arch, es: seq<Entry>, ts: seq<Thread>, current: nat)
    ensures Only(Pass(a, es, ts, current), IsReport) == Due(a, es, ts, current)
    ensures Only(Pass(a, es, ts, current), IsSuspend) == ToHold(es, ts, current)
    ensures Only(Pass(a, es, ts, current), IsLookup) == ToLookUp(ts, current)
  {
    VisitsAreDue(a, es, ts, current);
    OnlyVisits(a, es, ts, current, IsReport);
    OnlyVisits(a, es, ts, current, IsSuspend);
    OnlyVisits(a, es, ts, current, IsLookup);
  }

  lemma OnlyVisits(a: Arch, es: seq<Entry>, ts: seq<Thread>, current: nat, keep: Event -> bool)
    requires forall e :: keep(e) ==> !e.Acquire? && !e.Release?
    ensures Only(Pass(a, es, ts, current), keep) == Only(Visits(a, es, Others(ts, current)), keep)
  {
    hide Visits, Acquires, OwnReleases, Releases, Others;
    var others := Others(ts, current);
    var ports := Acquires(ts) + OwnReleases(ts, current);
    PortsReportNothing(ts, current);
    PortsReportNothing(others, current);
    OnlyNone(ports, keep);
    OnlyNone(Releases(others), keep);
    OnlyConcat(ports, Visits(a, es, others), keep);
    OnlyConcat(ports + Visits(a, es, others), Releases(others), keep);
  }

  // ----- complete stacks only

  lemma VisitComplete(a: Arch, es: seq<Entry>, t: Thread, e: Event)
    requires e in Visit(a, es, t) && e.Report? && !e.idle
    ensures t.port == e.thread && Collectable(a, t) && e.addresses == Map(a, StackOf(a, t))
  {
    hide Looked, Collectable, StackOf, Map;
  }

  lemma {:induction false} VisitsComplete(a: Arch, es: seq<Entry>, ts: seq<Thread>, e: Event)
    requires e in Visits(a, es, ts) && e.Report? && !e.idle
    ensures exists t :: t in ts && t.port == e.thread && Collectable(a, t) && e.addresses == Map(a, StackOf(a, t))
  {
    hide Visit, Collectable, StackOf, Map;
    var p, t := ts[..|ts| - 1], ts[|ts| - 1];
    if e in Visits(a, es, p) {
      VisitsComplete(a, es, p, e);
      assert forall t :: t in p ==> t in ts;
    } else {
      VisitComplete(a, CacheAfter(es, p), t, e);
      assert t in ts;
    }
  }

  /** Reported stacks are never truncated: whatever is reported for a thread that
      is not idle is its complete chain, from the program counter to the frame
      that has no valid successor, nothing left out. */
  lemma ReportedStacksAreComplete(a: Arch, es: seq<Entry>, ts: seq<Thread>, current: nat, e: Event)
    requires e in Pass(a, es, ts, current) && e.Report? && !e.idle
    ensures exists t :: t in ts && t.port == e.thread && t.port != current
              && Complete(a, t.memory, BoundsOf(a, t), t.context.fp)
              && e.addresses == Map(a, FullStack(a, t.memory, BoundsOf(a, t), t.context, t.context.fp))
              && |e.addresses| <= MAX_DEPTH
  {
    hide Visits, Acquires, OwnReleases, Releases, Others, FullStack, Complete, Map;
    var others := Others(ts, current);
    PortsReportNothing(ts, current);
    PortsReportNothing(others, current);
    VisitsComplete(a, es, others, e);
    OthersDiffer(ts, current);
  }

  // ----- the profiler's own threads

  ghost predicate OwnThread(es: seq<Entry>, h: nat) {
    Known(es, h) && es[Find(es, h)].metadata.threadID == 0
  }

  lemma {:induction false} OwnThreadStays(es: seq<Entry>, ts: seq<Thread>, h: nat)
    requires OwnThread(es, h)
    ensures OwnThread(CacheAfter(es, ts), h)
  {
    if ts != [] {
      var p := ts[..|ts| - 1];
      OwnThreadStays(es, p, h);
      KnownStays(CacheAfter(es, p), CacheAfter(es, ts), h);
    }
  }

  lemma {:induction false} OwnThreadSpared(a: Arch, es: seq<Entry>, ts: seq<Thread>, h: nat)
    requires OwnThread(es, h)
    ensures Suspend(h) !in Visits(a, es, ts)
  {
    if ts != [] {
      var p := ts[..|ts| - 1];
      OwnThreadSpared(a, es, p, h);
      OwnThreadStays(es, p, h);
      VisitSpares(a, CacheAfter(es, p), ts[|ts| - 1], h);
    }
  }

  lemma VisitSpares(a: Arch, es: seq<Entry>, t: Thread, h: nat)
    requires OwnThread(es, h)
    ensures Suspend(h) !in Visit(a, es, t)
  {
    hide Collectable, StackOf, Map;
  }

  // A run of passes with one cache.
  function Passes(a: Arch, es: seq<Entry>, runs: seq<seq<Thread>>, current: nat): seq<Event>
    decreases runs
  {
    if runs == [] then []
    else Pass(a, es, runs[0], current) + Passes(a, CacheAfter(es, Others(runs[0], current)), runs[1..], current)
  }

  /** A thread found to be the profiler's own is never suspended again, in any
      number of later passes, whatever it is called by then. */
  lemma {:induction false} OwnThreadsAreNeverSuspended(a: Arch, es: seq<Entry>, runs: seq<seq<Thread>>, current: nat, h: nat)
    requires OwnThread(es, h)
    ensures Suspend(h) !in Passes(a, es, runs, current)
    decreases runs
  {
    if runs != [] {
      var others := Others(runs[0], current);
      PortsAreCalm(runs[0], current);
      PortsAreCalm(others, current);
      OwnThreadSpared(a, es, others, h);
      OwnThreadStays(es, others, h);
      OwnThreadsAreNeverSuspended(a, CacheAfter(es, others), runs[1..], current, h);
    }
  }

  /** And the visit that finds out does not suspend it either: the first successful
      lookup of a thread whose name begins with io.sentry makes it an own thread. */
  lemma FirstLookupFindsOwnThread(a: Arch, es: seq<Entry>, t: Thread)
    requires !IsIdle(t) && !Known(es, t.port) && AnswerOf(t).priority != -1 && IsSentryOwned(AnswerOf(t).name)
    ensures OwnThread(VisitCache(es, t), t.port) && Suspend(t.port) !in Visit(a, es, t)
  {
    FindIs(VisitCache(es, t), t.port, |es|);
  }

  // ----- from the first successful lookup on

  lemma {:induction false} VisitsConcat(a: Arch, es: seq<Entry>, ts: seq<Thread>, us: seq<Thread>)
    ensures CacheAfter(es, ts + us) == CacheAfter(CacheAfter(es, ts), us)
    ensures Visits(a, es, ts + us) == Visits(a, es, ts) + Visits(a, CacheAfter(es, ts), us)
  {
    hide Visit, VisitCache;
    if us == [] {
      assert ts + us == ts;
    } else {
      var v := us[..|us| - 1];
      assert (ts + us)[..|ts + us| - 1] == ts + v;
      VisitsConcat(a, es, ts, v);
      assert Visits(a, es, ts + us) ==
             Visits(a, es, ts) + Visits(a, CacheAfter(es, ts), v) + Visit(a, CacheAfter(es, ts + v), us[|us| - 1]);
    }
  }

  // The visits from the first successful lookup of an own thread on.
  lemma SparedInThisPass(a: Arch, es: seq<Entry>, q: seq<Thread>)
    requires q != [] && !IsIdle(q[0]) && !Known(es, q[0].port)
    requires AnswerOf(q[0]).priority != -1 && IsSentryOwned(AnswerOf(q[0]).name)
    ensures Suspend(q[0].port) !in Visits(a, es, q) && OwnThread(CacheAfter(es, q), q[0].port)
  {
    hide Visit, VisitCache, OwnThread;
    var t, rest := q[0], q[1..];
    assert [t] + rest == q && [t][..0] == [];
    VisitsConcat(a, es, [t], rest);
    assert CacheAfter(es, [t]) == VisitCache(es, t) && Visits(a, es, [t]) == Visit(a, es, t);
    FirstLookupFindsOwnThread(a, es, t);
    OwnThreadSpared(a, VisitCache(es, t), rest, t.port);
    OwnThreadStays(VisitCache(es, t), rest, t.port);
  }

  /** From its first successful lookup on, a thread named with the prefix io.sentry is
      never suspended: not in the rest of that pass and not in any number of later
      ones, whatever it is called by then. */
  lemma OwnThreadsAreSparedFromFirstLookup(a: Arch, es: seq<Entry>, ts: seq<Thread>, current: nat, i: nat,
                                           runs: seq<seq<Thread>>)
    requires i < |Others(ts, current)|
    requires var q := Others(ts, current);
             && !IsIdle(q[i]) && !Known(CacheAfter(es, q[..i]), q[i].port)
             && AnswerOf(q[i]).priority != -1 && IsSentryOwned(AnswerOf(q[i]).name)
    ensures var q := Others(ts, current);
            var before := Acquires(ts) + OwnReleases(ts, current) + Visits(a, es, q[..i]);
            var trace := Pass(a, es, ts, current) + Passes(a, CacheAfter(es, q), runs, current);
            before <= trace && Suspend(q[i].port) !in trace[|before|..]
  {
    hide Visits, Acquires, OwnReleases, Releases, Others, Passes, CacheAfter, IsIdle, Known, AnswerOf, IsSentryOwned, OwnThread;
    var q := Others(ts, current);
    var h, es' := q[i].port, CacheAfter(es, q[..i]);
    assert q[..i] + q[i..] == q && q[i..][0] == q[i];
    VisitsConcat(a, es, q[..i], q[i..]);
    SparedInThisPass(a, es', q[i..]);
    OwnThreadsAreNeverSuspended(a, CacheAfter(es, q), runs, current, h);
    PortsAreCalm(q, current);
    var before := Acquires(ts) + OwnReleases(ts, current) + Visits(a, es, q[..i]);
    var after := Visits(a, es', q[i..]) + Releases(q) + Passes(a, CacheAfter(es, q), runs, current);
    var trace := Pass(a, es, ts, current) + Passes(a, CacheAfter(es, q), runs, current);
    assert trace == before + after;
    assert trace[|before|..] == after;
  }
}
