/**
  While no thread stops the cache, the interleaved machine implements the list
  of ImageHistory: every add and every remove takes effect at one step of its
  own, exactly once, and the list is at all times what those effects make it in
  that order.
 */
module ImageLinearize {
  import opened Sums
  import opened Wrappers
  import opened ImageProtocol
  import opened ImageOwnership
  import opened ImageReaders
  import opened ImageScan
  import H = ImageHistory

  ghost function Entries(s: State): (es: seq<H.Entry>)
    requires Linked(s.mem, List(s))
    ensures |es| == |List(s)|
  {
    seq(|List(s)|, i requires 0 <= i < |List(s)| =>
      H.Entry(s.mem[List(s)[i]].addr, s.mem[List(s)[i]].available))
  }

  // The loader event that the next step of thread t makes take effect: an add
  // when its node is linked, a remove when it marks a node or when it reads the
  // end of the list.
  function Commit(s: State, t: nat): seq<H.Event>
    requires t < |s.threads|
  {
    match s.threads[t]
    case Adder(pc) => if pc.Link? && pc.node < |s.mem| then [H.Load(s.mem[pc.node].addr)] else []
    case Remover(pc) =>
      (match pc
       case Matched(a, _, _) => [H.Unload(a)]
       case Follow(a, at, _) => if at < |s.mem| && s.mem[at].next == Null then [H.Unload(a)] else []
       case _ => [])
    case _ => []
  }

  function ApplyAll(es: seq<H.Entry>, h: seq<H.Event>): seq<H.Entry> {
    if h == [] then es else H.Apply(ApplyAll(es, h[..|h| - 1]), h[|h| - 1])
  }

  // No removal can reach a node its adder has not published.
  ghost predicate FreshHere(s: State, th: Thread) {
    forall n :: n in Held(th) ==> n < |s.mem| && s.mem[n].available
  }

  ghost predicate Fresh(s: State) {
    forall t :: 0 <= t < |s.threads| ==> FreshHere(s, s.threads[t])
  }

  // ----- Fresh is kept

  // A step makes at most one node unavailable, and that node is listed.
  ghost predicate MarksListed(s: State, s': State) {
    |s.mem| <= |s'.mem| &&
    forall n :: 0 <= n < |s.mem| && s'.mem[n].available != s.mem[n].available ==> n in List(s)
  }

  lemma StepMarksListed(s: State, s': State, t: nat, found: bool)
    requires t < |s.threads| && StepOf(s, s', t, found) && NoStop(s) && Tracks(s, s.threads[t])
    ensures MarksListed(s, s')
  {
    hide Searching, OnTrack, AddStep, RemoveStep, RegisterStep, StartStep, StopStep;
    match s.threads[t]
    case Adder(pc) => AddMarks(s, t, pc, found);
    case Remover(pc) => RemoveMarks(s, t, pc, found);
    case Registrar(pc) => RegisterMarks(s, t, pc);
    case Starter(pc) => StartMarks(s, t, pc);
    case _ =>
  }

  lemma AddMarks(s: State, t: nat, pc: Add, found: bool)
    requires t < |s.threads| && AddStep(s, t, pc, found).Some?
    ensures MarksListed(s, AddStep(s, t, pc, found).value)
  {}

  lemma RemoveMarks(s: State, t: nat, pc: Remove, found: bool)
    requires t < |s.threads| && RemoveStep(s, t, pc, found).Some? && Tracks(s, Remover(pc))
    ensures MarksListed(s, RemoveStep(s, t, pc, found).value)
  {
    if pc.Matched? { assert pc.at == List(s)[|pc.passed|]; }
  }

  lemma RegisterMarks(s: State, t: nat, pc: Register)
    requires t < |s.threads| && RegisterStep(s, t, pc).Some?
    ensures MarksListed(s, RegisterStep(s, t, pc).value)
  {}

  lemma StartMarks(s: State, t: nat, pc: Start)
    requires t < |s.threads| && StartStep(s, t, pc).Some?
    ensures MarksListed(s, StartStep(s, t, pc).value)
  {}

  lemma MoverFresh(s: State, s': State, t: nat, found: bool)
    requires t < |s.threads| == |s'.threads| && StepOf(s, s', t, found) && NoStop(s)
    requires FreshHere(s, s.threads[t])
    ensures FreshHere(s', s'.threads[t])
  {
    hide AddStep, RemoveStep, RegisterStep, StartStep, StopStep;
    if s.threads[t].Adder? {
      AddFresh(s, t, s.threads[t].add, found);
    } else {
      StepOthers(s, s', t, found);
    }
  }

  lemma AddFresh(s: State, t: nat, pc: Add, found: bool)
    requires t < |s.threads| && AddStep(s, t, pc, found).Some? && FreshHere(s, Adder(pc))
    ensures var s' := AddStep(s, t, pc, found).value; FreshHere(s', s'.threads[t])
  {
    hide AddStep;
    AddLeavesAvailable(s, t, pc, found);
    AddHolds(s, t, pc, found);
  }

  lemma AddLeavesAvailable(s: State, t: nat, pc: Add, found: bool)
    requires t < |s.threads| && AddStep(s, t, pc, found).Some?
    ensures var s' := AddStep(s, t, pc, found).value;
            |s.mem| <= |s'.mem| && forall n :: 0 <= n < |s.mem| ==> s'.mem[n].available == s.mem[n].available
  {}

  // An adder comes to hold a node only by allocating it.
  lemma AddHolds(s: State, t: nat, pc: Add, found: bool)
    requires t < |s.threads| && AddStep(s, t, pc, found).Some?
    ensures var s' := AddStep(s, t, pc, found).value;
            |s'.threads| == |s.threads| &&
            forall n :: n in Held(s'.threads[t]) ==>
              n in Held(Adder(pc)) || (n == |s.mem| < |s'.mem| && s'.mem[n].available)
  {
    AddAllocates(s, t, pc, found);
    hide AddStep;
    AddGoes(s, t, pc, found);
  }

  lemma AddAllocates(s: State, t: nat, pc: Add, found: bool)
    requires t < |s.threads| && AddStep(s, t, pc, found).Some?
    ensures pc.Build? && found ==>
              var s' := AddStep(s, t, pc, found).value; |s.mem| < |s'.mem| && s'.mem[|s.mem|].available
  {}

  lemma StepOthers(s: State, s': State, t: nat, found: bool)
    requires t < |s.threads| == |s'.threads| && StepOf(s, s', t, found) && NoStop(s)
    ensures !s.threads[t].Adder? ==> Held(s'.threads[t]) == multiset{}
  {
    hide AddStep;
  }

  lemma StepFresh(s: State, s': State, t: nat, found: bool)
    requires t < |s.threads| && StepOf(s, s', t, found) && AllTrack(s) && NoStop(s) && Fresh(s) && Inv(s)
    ensures Fresh(s')
  {
    hide Inv, NoStop, After, Tracks, FreshHere;
    StepGrows(s, s', t, found);
    StepMarksListed(s, s', t, found);
    MoverFresh(s, s', t, found);
    HeapNow(s);
    forall u | 0 <= u < |s'.threads| && u != t ensures FreshHere(s', s'.threads[u]) {
      OthersFresh(s, s', u);
    }
  }

  lemma OthersFresh(s: State, s': State, u: nat)
    requires u < |s.threads| && FreshHere(s, s.threads[u]) && MarksListed(s, s') && Conserved(s)
    ensures FreshHere(s', s.threads[u])
  {
    forall n | n in Held(s.threads[u]) ensures n !in List(s) { HeldElsewhere(s, u, n); }
  }

  // ----- each step has exactly the effect it commits

  lemma SameEntries(s: State, s': State)
    requires Linked(s.mem, List(s)) && Linked(s'.mem, List(s')) && s'.appended == s.appended
    requires forall i :: 0 <= i < |List(s)| ==>
               s'.mem[List(s)[i]].addr == s.mem[List(s)[i]].addr &&
               s'.mem[List(s)[i]].available == s.mem[List(s)[i]].available
    ensures Entries(s') == Entries(s)
  {}

  lemma AddCommits(s: State, t: nat, pc: Add, found: bool)
    requires t < |s.threads| && s.threads[t] == Adder(pc) && AddStep(s, t, pc, found).Some?
    requires Linked(s.mem, List(s)) && FreshHere(s, Adder(pc))
    requires var s' := AddStep(s, t, pc, found).value; Linked(s'.mem, List(s'))
    ensures Entries(AddStep(s, t, pc, found).value) == ApplyAll(Entries(s), Commit(s, t))
  {
    hide Linked;
    var s' := AddStep(s, t, pc, found).value;
    if pc.Link? {
      AddLinks(s, t, pc, found);
    } else {
      InRange(s);
      SameEntries(s, s');
    }
  }

  lemma InRange(s: State)
    requires Linked(s.mem, List(s))
    ensures forall i :: 0 <= i < |List(s)| ==> List(s)[i] < |s.mem|
  {}

  lemma AddLinks(s: State, t: nat, pc: Add, found: bool)
    requires t < |s.threads| && s.threads[t] == Adder(pc) && AddStep(s, t, pc, found).Some? && pc.Link?
    requires Linked(s.mem, List(s)) && FreshHere(s, Adder(pc))
    requires var s' := AddStep(s, t, pc, found).value; Linked(s'.mem, List(s'))
    ensures Entries(AddStep(s, t, pc, found).value) == ApplyAll(Entries(s), Commit(s, t))
  {
    hide Linked;
    var s' := AddStep(s, t, pc, found).value;
    InRange(s);
    var n := pc.node;
    assert n in Held(Adder(pc));
    assert List(s') == List(s) + [n];
    assert Entries(s') == Entries(s) + [H.Entry(s.mem[n].addr, true)];
    assert Commit(s, t)[..0] == [];
  }

  lemma RemoveCommits(s: State, t: nat, pc: Remove, found: bool)
    requires t < |s.threads| && s.threads[t] == Remover(pc) && RemoveStep(s, t, pc, found).Some?
    requires Tracks(s, Remover(pc)) && Distinct(List(s)) && Heap(s)
    requires var s' := RemoveStep(s, t, pc, found).value; Linked(s'.mem, List(s'))
    ensures Entries(RemoveStep(s, t, pc, found).value) == ApplyAll(Entries(s), Commit(s, t))
  {
    var s' := RemoveStep(s, t, pc, found).value;
    match pc
    case Compare(_, _, _) => SameEntries(s, s');
    case Follow(a, at, passed) =>
      SameEntries(s, s');
      if s.mem[at].next == Null { RemoveFindsNone(s, t, pc); }
    case Matched(_, _, _) => RemoveMarksEntry(s, t, pc, found);
    case Consult(_) => SameEntries(s, s');
    case Hand(_) => SameEntries(s, s');
  }

  lemma RemoveMarksEntry(s: State, t: nat, pc: Remove, found: bool)
    requires t < |s.threads| && s.threads[t] == Remover(pc)
    requires pc.Matched? && Readable(s, To(pc.at))
    requires Tracks(s, Remover(pc)) && Distinct(List(s)) && Linked(s.mem, List(s))
    requires var s' := RemoveStep(s, t, pc, found).value; Linked(s'.mem, List(s'))
    ensures Entries(RemoveStep(s, t, pc, found).value) == ApplyAll(Entries(s), Commit(s, t))
  {
    hide Linked;
    InRange(s);
    var s', k := RemoveStep(s, t, pc, found).value, |pc.passed|;
    var es := Entries(s);
    assert es[k].addr == pc.addr;
    forall i | 0 <= i < k ensures es[i].addr != pc.addr { assert pc.passed[i] == List(s)[i]; }
    H.MarkFirstAt(es, k, pc.addr);
    assert Entries(s') == es[k := H.Entry(pc.addr, false)];
    assert Commit(s, t) == [H.Unload(pc.addr)] && Commit(s, t)[..0] == [];
  }

  lemma RemoveFindsNone(s: State, t: nat, pc: Remove)
    requires t < |s.threads| && s.threads[t] == Remover(pc)
    requires pc.Follow? && pc.at < |s.mem| && s.mem[pc.at].next == Null
    requires Tracks(s, Remover(pc)) && Heap(s)
    ensures ApplyAll(Entries(s), Commit(s, t)) == Entries(s)
  {
    var es := Entries(s);
    NextOf(s, |pc.passed|);
    assert |List(s)| == |pc.passed| + 1;
    forall i | 0 <= i < |es| ensures es[i].addr != pc.addr {
      if i < |pc.passed| { assert pc.passed[i] == List(s)[i]; }
    }
    H.MarkFirstAt(es, |es|, pc.addr);
    assert Commit(s, t) == [H.Unload(pc.addr)] && Commit(s, t)[..0] == [];
  }

  lemma OtherCommits(s: State, s': State, t: nat, found: bool)
    requires t < |s.threads| && StepOf(s, s', t, found) && NoStop(s)
    requires !s.threads[t].Adder? && !s.threads[t].Remover?
    requires Linked(s.mem, List(s)) && Linked(s'.mem, List(s'))
    ensures Entries(s') == ApplyAll(Entries(s), Commit(s, t))
  {
    hide Linked, AddStep, RemoveStep, StopStep;
    InRange(s);
    SameEntries(s, s');
  }

  lemma StepCommits(s: State, s': State, t: nat, found: bool)
    requires t < |s.threads| && StepOf(s, s', t, found) && AllTrack(s) && NoStop(s) && Fresh(s)
    requires Inv(s)
    ensures Linked(s.mem, List(s)) && Linked(s'.mem, List(s'))
    ensures Entries(s') == ApplyAll(Entries(s), Commit(s, t))
  {
    hide Inv, NoStop, Tracks, FreshHere, AddStep, RemoveStep, RegisterStep, StartStep, StopStep, Linked, Distinct, Conserved;
    assert Step(s, s');
    StepKeeps(s, s');
    HeapNow(s);
    HeapNow(s');
    ListDistinct(s);
    match s.threads[t]
    case Adder(pc) => AddCommits(s, t, pc, found);
    case Remover(pc) => RemoveCommits(s, t, pc, found);
    case _ => OtherCommits(s, s', t, found);
  }

  // ----- whole runs

  // A run together with the thread that moves at each step.
  ghost predicate Scheduled(r: seq<State>, who: seq<(nat, bool)>) {
    && |r| == |who| + 1 && Init(r[0])
    && forall i :: 0 <= i < |who| ==> StepOf(r[i], r[i + 1], who[i].0, who[i].1)
  }

  // The loader events in the order in which they take effect.
  ghost function History(r: seq<State>, who: seq<(nat, bool)>): seq<H.Event>
    requires Scheduled(r, who)
    decreases |who|
  {
    if who == [] then []
    else
      var n := |who| - 1;
      assert StepOf(r[n], r[n + 1], who[n].0, who[n].1);
      History(r[..n + 1], who[..n]) + Commit(r[n], who[n].0)
  }

  lemma {:induction false} ScheduledRun(r: seq<State>, who: seq<(nat, bool)>)
    requires Scheduled(r, who)
    ensures Run(r)
  {
    forall i | 0 < i < |r| ensures Step(r[i - 1], r[i]) {
      assert StepOf(r[i - 1], r[i - 1 + 1], who[i - 1].0, who[i - 1].1);
    }
  }

  lemma {:induction false} CachedAfter(es: seq<H.Entry>, h: seq<H.Event>, c: seq<H.Event>)
    requires es == H.Cached(h) && |c| <= 1
    ensures ApplyAll(es, c) == H.Cached(h + c)
  {
    if c == [] {
      assert h + c == h;
    } else {
      assert (h + c)[..|h + c| - 1] == h && c[..0] == [];
    }
  }

  lemma {:induction false} RunFresh(r: seq<State>)
    requires Run(r) && NoStop(r[0])
    ensures forall i :: 0 <= i < |r| ==> Fresh(r[i])
  {
    hide Inv, NoStop, AllTrack, After, Fresh, Init;
    if |r| == 1 {
      InitFresh(r[0]);
    } else {
      var p := r[..|r| - 1];
      RunFresh(p);
      RunTracks(p);
      RunInv(p);
      var s, s' := r[|r| - 2], r[|r| - 1];
      assert p[|r| - 2] == s && Step(s, s');
      var t: nat, found: bool :| StepOf(s, s', t, found);
      StepFresh(s, s', t, found);
    }
  }

  lemma InitFresh(s: State)
    requires Init(s)
    ensures Fresh(s)
  {}

  // ----- each call takes effect once

  // What a call has committed, by where it began and where it is: an add that is
  // past its link, a remove that has marked a node or read the end of the list.
  function Done(began: Thread, now: Thread): seq<H.Event> {
    match began
    case Adder(a) =>
      if a.Enter? && now.Adder? && (now.add.Move? || now.add.Exit? || now.add.Notify? || now.add.Tell? || now.add.Finished?)
      then [H.Load(a.addr)] else []
    case Remover(r) =>
      if r.Compare? && now.Remover? &&
         (now.remove.Consult? || now.remove.Hand? || now.remove.Marked? || now.remove.NoMatch? ||
          (now.remove.Compare? && now.remove.cur == Null))
      then [H.Unload(r.addr)] else []
    case _ => []
  }

  // `now` is the call that began as `began`, with the address it began with.
  ghost predicate SameCall(s: State, began: Thread, now: Thread) {
    match began
    case Adder(a) =>
      && a.Enter? && now.Adder?
      && (match now.add
          case Enter(b) => b == a.addr
          case Check(b) => b == a.addr
          case Leave(b) => b == a.addr
          case Build(b) => b == a.addr
          case Quit => true
          case Gone => true
          case pc => pc.node < |s.mem| && s.mem[pc.node].addr == a.addr)
    case Remover(r) =>
      r.Compare? && r.cur != Null && now.Remover? &&
      (now.remove.Compare? || now.remove.Follow? || now.remove.Matched? ==> now.remove.addr == r.addr)
    case _ => !now.Adder? && !now.Remover?
  }

  ghost predicate KeepsAddrs(s: State, s': State) {
    |s.mem| <= |s'.mem| && forall n :: 0 <= n < |s.mem| ==> s'.mem[n].addr == s.mem[n].addr
  }

  lemma StepKeepsAddrs(s: State, s': State, t: nat, found: bool)
    requires StepOf(s, s', t, found)
    ensures KeepsAddrs(s, s')
  {
    hide AddStep, RemoveStep, RegisterStep, StartStep, StopStep;
    match s.threads[t]
    case Adder(pc) => AddKeepsAddrs(s, t, pc, found);
    case Remover(pc) => RemoveKeepsAddrs(s, t, pc, found);
    case Registrar(pc) => RegisterKeepsAddrs(s, t, pc);
    case Starter(pc) => StartKeepsAddrs(s, t, pc);
    case Stopper(pc) => StopKeepsAddrs(s, t, pc);
    case _ =>
  }

  lemma AddKeepsAddrs(s: State, t: nat, pc: Add, found: bool)
    requires t < |s.threads| && AddStep(s, t, pc, found).Some?
    ensures KeepsAddrs(s, AddStep(s, t, pc, found).value)
    ensures pc.Build? && found ==> var s' := AddStep(s, t, pc, found).value; |s.mem| < |s'.mem| && s'.mem[|s.mem|].addr == pc.addr
  {}

  lemma RemoveKeepsAddrs(s: State, t: nat, pc: Remove, found: bool)
    requires t < |s.threads| && RemoveStep(s, t, pc, found).Some?
    ensures KeepsAddrs(s, RemoveStep(s, t, pc, found).value)
  {}

  lemma RegisterKeepsAddrs(s: State, t: nat, pc: Register)
    requires t < |s.threads| && RegisterStep(s, t, pc).Some?
    ensures KeepsAddrs(s, RegisterStep(s, t, pc).value)
  {}

  lemma StartKeepsAddrs(s: State, t: nat, pc: Start)
    requires t < |s.threads| && StartStep(s, t, pc).Some?
    ensures KeepsAddrs(s, StartStep(s, t, pc).value)
  {}

  lemma StopKeepsAddrs(s: State, t: nat, pc: Stop)
    requires t < |s.threads| && StopStep(s, t, pc).Some?
    ensures KeepsAddrs(s, StopStep(s, t, pc).value)
  {}

  // The moving thread goes on with its call, and what the call has done grows by
  // what the step commits.
  lemma MoverCommits(s: State, s': State, t: nat, found: bool, began: Thread)
    requires StepOf(s, s', t, found) && t < |s'.threads| && SameCall(s, began, s.threads[t])
    ensures SameCall(s', began, s'.threads[t])
    ensures Done(began, s'.threads[t]) == Done(began, s.threads[t]) + Commit(s, t)
    ensures Done(began, s.threads[t]) == [] || Commit(s, t) == []
  {
    hide AddStep, RemoveStep, RegisterStep, StartStep, StopStep;
    match s.threads[t]
    case Adder(pc) => AdderCommits(s, t, pc, found, began);
    case Remover(pc) => RemoverCommits(s, t, pc, found, began);
    case Registrar(pc) => RegistrarMovesOn(s, t, pc);
    case Starter(pc) => StarterHoldsNone(s, t, pc);
    case Stopper(pc) => StopperHoldsNone(s, t, pc);
    case _ =>
  }

  lemma AdderCommits(s: State, t: nat, pc: Add, found: bool, began: Thread)
    requires t < |s.threads| && s.threads[t] == Adder(pc) && AddStep(s, t, pc, found).Some?
    requires SameCall(s, began, Adder(pc))
    ensures var s' := AddStep(s, t, pc, found).value;
            && t < |s'.threads| && SameCall(s', began, s'.threads[t])
            && Done(began, s'.threads[t]) == Done(began, Adder(pc)) + Commit(s, t)
            && (Done(began, Adder(pc)) == [] || Commit(s, t) == [])
  {
    AddKeepsAddrs(s, t, pc, found);
    AddGoes(s, t, pc, found);
    hide AddStep;
  }

  lemma RemoverCommits(s: State, t: nat, pc: Remove, found: bool, began: Thread)
    requires t < |s.threads| && s.threads[t] == Remover(pc) && RemoveStep(s, t, pc, found).Some?
    requires SameCall(s, began, Remover(pc))
    ensures var s' := RemoveStep(s, t, pc, found).value;
            && t < |s'.threads| && SameCall(s', began, s'.threads[t])
            && Done(began, s'.threads[t]) == Done(began, Remover(pc)) + Commit(s, t)
            && (Done(began, Remover(pc)) == [] || Commit(s, t) == [])
  {}

  // The events of one call, in the order in which they take effect.
  ghost function CommittedBy(r: seq<State>, who: seq<(nat, bool)>, t: nat): seq<H.Event>
    requires Scheduled(r, who)
    decreases |who|
  {
    if who == [] then []
    else
      var n := |who| - 1;
      assert StepOf(r[n], r[n + 1], who[n].0, who[n].1);
      CommittedBy(r[..n + 1], who[..n], t) + if who[n].0 == t then Commit(r[n], t) else []
  }

  // Every thread is still in the call it began.
  ghost predicate SameCalls(r0: State, s: State) {
    |s.threads| == |r0.threads| && forall t :: 0 <= t < |s.threads| ==> SameCall(s, r0.threads[t], s.threads[t])
  }

  lemma StepSameCalls(r0: State, s: State, s': State, u: nat, found: bool)
    requires StepOf(s, s', u, found) && SameCalls(r0, s)
    ensures SameCalls(r0, s') && s'.threads == s.threads[u := s'.threads[u]]
  {
    hide StepOf, Done, Commit;
    StepIsOfThread(s, s', u, found);
    StepFrame(s, s', u, found);
    StepKeepsAddrs(s, s', u, found);
    MoverCommits(s, s', u, found, r0.threads[u]);
    forall t | 0 <= t < |s'.threads| && t != u ensures SameCall(s', r0.threads[t], s'.threads[t]) {
      assert SameCall(s, r0.threads[t], s.threads[t]);
    }
  }

  lemma InitSameCalls(s: State)
    requires Init(s)
    ensures SameCalls(s, s)
    ensures forall t :: 0 <= t < |s.threads| ==> Done(s.threads[t], s.threads[t]) == []
  {}

  lemma {:induction false} RunSameCalls(r: seq<State>, who: seq<(nat, bool)>)
    requires Scheduled(r, who)
    ensures SameCalls(r[0], r[|who|])
    decreases |who|
  {
    hide Init, StepOf, SameCalls;
    if who == [] {
      InitSameCalls(r[0]);
    } else {
      var n := |who| - 1;
      RunSameCalls(r[..n + 1], who[..n]);
      StepSameCalls(r[0], r[n], r[n + 1], who[n].0, who[n].1);
    }
  }

  /** Every add and every remove takes effect exactly once, at a step of its own: at
      every point of every interleaving a call has committed its one event if it is
      past its link, has marked a node or has read the end, and nothing before. */
  lemma {:induction false} CallCommitsOnce(r: seq<State>, who: seq<(nat, bool)>, t: nat)
    requires Scheduled(r, who) && t < |r[0].threads|
    ensures |r[|who|].threads| == |r[0].threads|
    ensures CommittedBy(r, who, t) == Done(r[0].threads[t], r[|who|].threads[t])
    decreases |who|
  {
    hide Init, StepOf, SameCall, Done, Commit;
    RunSameCalls(r, who);
    if who == [] {
      InitSameCalls(r[0]);
    } else {
      var n := |who| - 1;
      CallCommitsOnce(r[..n + 1], who[..n], t);
      RunSameCalls(r[..n + 1], who[..n]);
      var s, s', u := r[n], r[n + 1], who[n].0;
      StepSameCalls(r[0], s, s', u, who[n].1);
      if u == t {
        MoverCommits(s, s', u, who[n].1, r[0].threads[u]);
      }
    }
  }

  // How many of the calls have committed event e.
  function Calls(began: seq<Thread>, now: seq<Thread>, e: H.Event): nat
    requires |began| == |now|
  {
    if began == [] then 0
    else
      var n := |began| - 1;
      Calls(began[..n], now[..n], e) + if Done(began[n], now[n]) == [e] then 1 else 0
  }

  lemma {:induction false} CallsUpdate(began: seq<Thread>, now: seq<Thread>, u: nat, th: Thread, e: H.Event)
    requires |began| == |now| && u < |now|
    ensures Calls(began, now[u := th], e) ==
            Calls(began, now, e) - (if Done(began[u], now[u]) == [e] then 1 else 0)
                                 + (if Done(began[u], th) == [e] then 1 else 0)
  {
    hide Done;
    var n := |began| - 1;
    if u == n {
      assert now[u := th][..n] == now[..n];
    } else {
      assert now[u := th][..n] == now[..n][u := th];
      CallsUpdate(began[..n], now[..n], u, th, e);
    }
  }

  lemma {:induction false} NoCallsYet(began: seq<Thread>, e: H.Event)
    requires forall t :: 0 <= t < |began| ==> Done(began[t], began[t]) == []
    ensures Calls(began, began, e) == 0
  {
    hide Done;
    if began != [] { NoCallsYet(began[..|began| - 1], e); }
  }

  /** So the committed history is nothing but the calls: each event occurs in it as
      often as calls for it have taken effect. */
  lemma {:induction false} HistoryIsTheCalls(r: seq<State>, who: seq<(nat, bool)>, e: H.Event)
    requires Scheduled(r, who)
    ensures |r[|who|].threads| == |r[0].threads|
    ensures multiset(History(r, who))[e] == Calls(r[0].threads, r[|who|].threads, e)
    decreases |who|
  {
    hide Init, StepOf, SameCall, Done, Commit, Calls;
    RunSameCalls(r, who);
    if who == [] {
      InitSameCalls(r[0]);
      NoCallsYet(r[0].threads, e);
    } else {
      var n := |who| - 1;
      HistoryIsTheCalls(r[..n + 1], who[..n], e);
      RunSameCalls(r[..n + 1], who[..n]);
      var s, s', u := r[n], r[n + 1], who[n].0;
      StepIsOfThread(s, s', u, who[n].1);
      StepSameCalls(r[0], s, s', u, who[n].1);
      MoverCommits(s, s', u, who[n].1, r[0].threads[u]);
      CallsUpdate(r[0].threads, s.threads, u, s'.threads[u], e);
      CommitsOne(s, u);
      OneMore(History(r[..n + 1], who[..n]), Commit(s, u), e);
    }
  }

  lemma OneMore(h: seq<H.Event>, c: seq<H.Event>, e: H.Event)
    requires |c| <= 1
    ensures multiset(h + c)[e] == multiset(h)[e] + if c == [e] then 1 else 0
  {
    assert c == [] || c == [c[0]];
  }

  /** Linearizability of adds and removes: at every point of every interleaving
      without a stop, the list holds exactly what the sequential cache would hold
      after the committed events, in commit order. */
  lemma {:induction false} Linearizable(r: seq<State>, who: seq<(nat, bool)>)
    requires Scheduled(r, who) && NoStop(r[0])
    ensures var s := r[|who|];
            Linked(s.mem, List(s)) && Entries(s) == H.Cached(History(r, who))
    decreases |who|
  {
    hide Inv, NoStop, AllTrack, After, Fresh;
    ScheduledRun(r, who);
    RunInv(r);
    if who == [] {
      InitEntries(r[0]);
    } else {
      var n := |who| - 1;
      var p := r[..n + 1];
      Linearizable(p, who[..n]);
      RunTracks(r);
      RunFresh(r);
      assert StepOf(r[n], r[n + 1], who[n].0, who[n].1);
      StepCommits(r[n], r[n + 1], who[n].0, who[n].1);
      CommitsOne(r[n], who[n].0);
      CachedAfter(Entries(r[n]), History(p, who[..n]), Commit(r[n], who[n].0));
    }
  }

  lemma CommitsOne(s: State, t: nat)
    requires t < |s.threads|
    ensures |Commit(s, t)| <= 1
  {}

  lemma InitEntries(s: State)
    requires Init(s)
    ensures Linked(s.mem, List(s)) && Entries(s) == [H.ROOT]
  {}

  /** So after any interleaving whose committed events form a well-formed loader
      history, the available images are the loaded ones, in load order, exactly
      when no address was unloaded twice. */
  lemma {:induction false} ConcurrentCacheAgreesIff(r: seq<State>, who: seq<(nat, bool)>)
    requires Scheduled(r, who) && NoStop(r[0]) && H.WellFormed(History(r, who))
    ensures var s, h := r[|who|], History(r, who);
            Linked(s.mem, List(s)) &&
            (H.Listed(Entries(s)) == H.Loaded(h) <==> forall a :: H.Unloads(h, a) <= 1)
  {
    hide Init, StepOf, NoStop, Entries;
    Linearizable(r, who);
    H.CacheAgreesIff(History(r, who));
  }
}
