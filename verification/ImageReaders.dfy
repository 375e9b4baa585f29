/**
  Where the pointers lead that threads follow, in all interleavings, stops
  included: under the mutex always to a live node; a thread outside the mutex may
  be left holding a node that a stop has freed, and no other dead node.
 */
module ImageReaders {
  import opened Sums
  import opened Wrappers
  import opened ImageProtocol
  import opened ImageOwnership

  // The node at which a thread stands in the list: a reader's cursor, the node a
  // removal has matched, the node an adder has listed.
  function InHand(th: Thread): Ptr {
    match th
    case Adder(a) => if a.Move? || a.Exit? || a.Notify? || a.Tell? then To(a.node) else Null
    case Remover(r) =>
      (match r
       case Compare(_, cur, _) => cur
       case Follow(_, at, _) => To(at)
       case Matched(_, at, _) => To(at)
       case Consult(n) => To(n)
       case Hand(n) => To(n)
       case Marked(_) => Null
       case NoMatch => Null)
    case Iterator(c) => if c.phase.Over? then Null else c.cur
    case Registrar(r) => if r.Scanning? then r.scan.cur else Null
    case _ => Null
  }

  ghost predicate Placed(s: State, n: nat) { n in List(s) || n in s.doomed }

  // A stop frees node n in this step.
  ghost predicate FreedByStop(s: State, s': State, n: nat) {
    exists u: nat :: u < |s.threads| && s.threads[u] == Stopper(Free(To(n))) && StepOf(s, s', u, false)
  }

  // A stop has freed node n in the course of the run.
  ghost predicate Reclaimed(r: seq<State>, n: nat) {
    exists m :: 0 <= m < |r| - 1 && FreedByStop(r[m], r[m + 1], n)
  }

  // ----- what one step does to the places of nodes

  lemma StepFrame(s: State, s': State, t: nat, found: bool)
    requires StepOf(s, s', t, found)
    ensures |s'.threads| == |s.threads| && s'.threads == s.threads[t := s'.threads[t]]
    ensures forall n: nat :: s.freed[n] <= s'.freed[n]
  {
    hide AddStep, RemoveStep, RegisterStep, StartStep, StopStep;
    match s.threads[t]
    case Adder(pc) => AddFrame(s, t, pc, found);
    case Remover(pc) => RemoveFrame(s, t, pc, found);
    case Registrar(pc) => RegisterFrame(s, t, pc);
    case Starter(pc) => StartFrame(s, t, pc);
    case Stopper(pc) => StopFrame(s, t, pc);
    case _ =>
  }

  ghost predicate Frame(s: State, s': State, t: nat) {
    && t < |s.threads| == |s'.threads| && s'.threads == s.threads[t := s'.threads[t]]
    && s.freed <= s'.freed
  }

  lemma AddFrame(s: State, t: nat, pc: Add, found: bool)
    requires t < |s.threads| && AddStep(s, t, pc, found).Some?
    ensures Frame(s, AddStep(s, t, pc, found).value, t)
  {}

  lemma RemoveFrame(s: State, t: nat, pc: Remove, found: bool)
    requires t < |s.threads| && RemoveStep(s, t, pc, found).Some?
    ensures Frame(s, RemoveStep(s, t, pc, found).value, t)
  {}

  lemma RegisterFrame(s: State, t: nat, pc: Register)
    requires t < |s.threads| && RegisterStep(s, t, pc).Some?
    ensures Frame(s, RegisterStep(s, t, pc).value, t)
  {}

  lemma StartFrame(s: State, t: nat, pc: Start)
    requires t < |s.threads| && StartStep(s, t, pc).Some?
    ensures Frame(s, StartStep(s, t, pc).value, t)
  {}

  lemma StopFrame(s: State, t: nat, pc: Stop)
    requires t < |s.threads| && StopStep(s, t, pc).Some?
    ensures Frame(s, StopStep(s, t, pc).value, t)
  {}

  // Listed nodes stay listed until a stop cuts them off, and cut-off ones stay in
  // its hands until it frees them.
  lemma PlacesMove(s: State, s': State, t: nat, found: bool, n: nat)
    requires StepOf(s, s', t, found) && Inv(s)
    ensures n in List(s) ==> n in List(s') || (n in s'.doomed && s.threads[t] == Stopper(Cut))
    ensures n in s.doomed ==> n in s'.doomed || FreedByStop(s, s', n)
  {
    hide Inv, AddStep, RemoveStep, RegisterStep, StartStep, StopStep;
    match s.threads[t]
    case Adder(pc) => AddPlaces(s, t, pc, found);
    case Remover(pc) => RemovePlaces(s, t, pc, found);
    case Registrar(pc) => RegisterPlaces(s, t, pc);
    case Starter(pc) => StartPlaces(s, t, pc);
    case Stopper(pc) => StopPlaces(s, s', t, pc, n);
    case _ =>
  }

  lemma AddPlaces(s: State, t: nat, pc: Add, found: bool)
    requires t < |s.threads| && AddStep(s, t, pc, found).Some?
    ensures var s' := AddStep(s, t, pc, found).value; s.appended <= s'.appended && s'.doomed == s.doomed
  {}

  lemma RemovePlaces(s: State, t: nat, pc: Remove, found: bool)
    requires t < |s.threads| && RemoveStep(s, t, pc, found).Some?
    ensures var s' := RemoveStep(s, t, pc, found).value; s'.appended == s.appended && s'.doomed == s.doomed
  {}

  lemma RegisterPlaces(s: State, t: nat, pc: Register)
    requires t < |s.threads| && RegisterStep(s, t, pc).Some?
    ensures var s' := RegisterStep(s, t, pc).value; s'.appended == s.appended && s'.doomed == s.doomed
  {}

  lemma StartPlaces(s: State, t: nat, pc: Start)
    requires t < |s.threads| && StartStep(s, t, pc).Some?
    ensures var s' := StartStep(s, t, pc).value; s'.appended == s.appended && s'.doomed == s.doomed
  {}

  lemma StopPlaces(s: State, s': State, t: nat, pc: Stop, n: nat)
    requires t < |s.threads| && s.threads[t] == Stopper(pc) && StopStep(s, t, pc) == Some(s') && Inv(s)
    ensures n in List(s) ==> n in List(s') || (n in s'.doomed && pc == Cut)
    ensures n in s.doomed ==> n in s'.doomed || FreedByStop(s, s', n)
  {
    hide Inv, Linked;
    if Critical(s.threads[t]) { OwnerNow(s, t); }
    if pc.Free? && pc.first != Null && n == pc.first.id { assert StepOf(s, s', t, false); }
  }

  // The successor of a node in place is in place.
  lemma NextIsPlaced(s: State, m: nat, n: nat)
    requires Heap(s) && m < |s.mem| && s.mem[m].next == To(n)
    ensures m in List(s) ==> n in List(s)
    ensures m in s.doomed ==> n in s.doomed
  {
    if m in List(s) { NextInList(s.mem, List(s), m, n); }
    if m in s.doomed { NextInList(s.mem, s.doomed, m, n); }
  }

  lemma NextInList(mem: seq<Node>, ids: seq<nat>, m: nat, n: nat)
    requires Linked(mem, ids) && m in ids && m < |mem| && mem[m].next == To(n)
    ensures n in ids
  {
    var i :| 0 <= i < |ids| && ids[i] == m;
    assert i + 1 < |ids| && ids[i + 1] == n;
  }

  // A reader begins at the root, an adder at the node it has just listed; from
  // there a thread stays where it is or goes on to the next node.
  lemma ReaderMoves(s: State, s': State, t: nat, found: bool)
    requires StepOf(s, s', t, found) && t < |s'.threads| && InHand(s'.threads[t]).To?
    ensures s.appended <= s'.appended && s'.doomed == s.doomed
    ensures var p, p' := InHand(s.threads[t]), InHand(s'.threads[t]);
            p'.id in List(s') || p' == p || (Readable(s, p) && s.mem[p.id].next == p')
    ensures s'.threads[t].Registrar? <==> s.threads[t].Registrar?
  {
    hide AddStep, RemoveStep, RegisterStep, StartStep, StopStep;
    match s.threads[t]
    case Adder(pc) => AdderMoves(s, t, pc, found);
    case Remover(pc) => RemoverMoves(s, t, pc, found);
    case Idle =>
    case Iterator(c) =>
    case Registrar(pc) => RegistrarMovesOn(s, t, pc);
    case Starter(pc) => StarterHoldsNone(s, t, pc);
    case Stopper(pc) => StopperHoldsNone(s, t, pc);
  }

  lemma AdderMoves(s: State, t: nat, pc: Add, found: bool)
    requires t < |s.threads| && AddStep(s, t, pc, found).Some?
    ensures var s' := AddStep(s, t, pc, found).value;
            && s.appended <= s'.appended && s'.doomed == s.doomed && |s'.threads| == |s.threads|
            && s'.threads[t].Adder?
            && var p, p' := InHand(Adder(pc)), InHand(s'.threads[t]);
               p' == p || p' == Null || p'.id in s'.appended
  {
    AddGoes(s, t, pc, found);
    AddPlaces(s, t, pc, found);
    if pc.Link? { LinkPlaces(s, t, pc.node, found); }
    hide AddStep;
  }

  lemma LinkPlaces(s: State, t: nat, n: nat, found: bool)
    requires t < |s.threads| && AddStep(s, t, Link(n), found).Some?
    ensures n in AddStep(s, t, Link(n), found).value.appended
  {}

  lemma RemoverMoves(s: State, t: nat, pc: Remove, found: bool)
    requires t < |s.threads| && RemoveStep(s, t, pc, found).Some?
    ensures var s' := RemoveStep(s, t, pc, found).value;
            && s'.appended == s.appended && s'.doomed == s.doomed && |s'.threads| == |s.threads|
            && s'.threads[t].Remover?
            && var p, p' := InHand(Remover(pc)), InHand(s'.threads[t]);
               p' == p || p' == Null || (Readable(s, p) && s.mem[p.id].next == p')
  {}

  lemma RegistrarMovesOn(s: State, t: nat, pc: Register)
    requires t < |s.threads| && RegisterStep(s, t, pc).Some?
    ensures var s' := RegisterStep(s, t, pc).value;
            && s'.appended == s.appended && s'.doomed == s.doomed && |s'.threads| == |s.threads|
            && s'.threads[t].Registrar?
            && var p, p' := InHand(Registrar(pc)), InHand(s'.threads[t]);
               p' == To(0) || p' == p || p' == Null || (Readable(s, p) && s.mem[p.id].next == p')
  {}

  lemma StarterHoldsNone(s: State, t: nat, pc: Start)
    requires t < |s.threads| && StartStep(s, t, pc).Some?
    ensures var s' := StartStep(s, t, pc).value; |s'.threads| == |s.threads| && s'.threads[t].Starter?
  {}

  lemma StopperHoldsNone(s: State, t: nat, pc: Stop)
    requires t < |s.threads| && StopStep(s, t, pc).Some?
    ensures var s' := StopStep(s, t, pc).value; |s'.threads| == |s.threads| && s'.threads[t].Stopper?
  {}

  // ----- whole runs

  lemma PlacedIsLive(s: State, n: nat)
    requires Placed(s, n) && Conserved(s)
    ensures s.freed[n] == 0
  {
    InOnePlace(s, n);
    assert n in s.appended ==> multiset(s.appended)[n] > 0;
    assert n in s.doomed ==> multiset(s.doomed)[n] > 0;
  }

  lemma InPrefix(r: seq<State>, m: nat)
    requires m < |r| - 1
    ensures r[..|r| - 1][m] == r[m]
  {}

  lemma {:induction false} FreedStays(r: seq<State>, m: nat, n: nat)
    requires Run(r) && m < |r|
    ensures r[m].freed[n] <= r[|r| - 1].freed[n]
    decreases |r|
  {
    hide Init, After;
    if m < |r| - 1 {
      var p := r[..|r| - 1];
      FreedStays(p, m, n);
      var s, s' := r[|r| - 2], r[|r| - 1];
      assert p[|r| - 2] == s && Step(s, s');
      var t: nat, found: bool :| StepOf(s, s', t, found);
      StepFrame(s, s', t, found);
    }
  }

  lemma FreedNow(s: State, s': State, n: nat)
    requires FreedByStop(s, s', n)
    ensures s'.freed[n] > 0
  {}

  lemma ReclaimedIsFreed(r: seq<State>, n: nat)
    requires Run(r) && Reclaimed(r, n)
    ensures r[|r| - 1].freed[n] > 0
  {
    hide Run, FreedByStop;
    var m :| 0 <= m < |r| - 1 && FreedByStop(r[m], r[m + 1], n);
    FreedNow(r[m], r[m + 1], n);
    FreedStays(r, m + 1, n);
  }

  // A thread stands at a node in place, or at one that a stop has freed; the
  // registrar, which holds the mutex, at a listed one.
  ghost predicate Stands(r: seq<State>, th: Thread)
    requires |r| > 0
  {
    var s, p := r[|r| - 1], InHand(th);
    p.To? ==> (Placed(s, p.id) || Reclaimed(r, p.id)) && (th.Registrar? ==> p.id in List(s))
  }

  lemma ReclaimedLater(r: seq<State>, n: nat)
    requires |r| > 1
    ensures Reclaimed(r[..|r| - 1], n) ==> Reclaimed(r, n)
    ensures FreedByStop(r[|r| - 2], r[|r| - 1], n) ==> Reclaimed(r, n)
  {
    hide FreedByStop;
    var p, k := r[..|r| - 1], |r| - 2;
    if m :| 0 <= m < |p| - 1 && FreedByStop(p[m], p[m + 1], n) {
      InPrefix(r, m);
      InPrefix(r, m + 1);
      assert FreedByStop(r[m], r[m + 1], n);
    }
    assert FreedByStop(r[k], r[k + 1], n) ==> Reclaimed(r, n);
  }

  // Only the mutex owner cuts the list off.
  lemma ScanningIsAlone(s: State, q: nat, t: nat)
    requires Exclusive(s) && q < |s.threads| && t < |s.threads| && q != t
    requires s.threads[q].Registrar? && InHand(s.threads[q]).To?
    ensures s.threads[t] != Stopper(Cut)
  {}

  lemma OthersStand(r: seq<State>, t: nat, u: nat, found: bool)
    requires |r| > 1 && t < |r[|r| - 2].threads| && t != u
    requires Stands(r[..|r| - 1], r[|r| - 2].threads[t]) && StepOf(r[|r| - 2], r[|r| - 1], u, found)
    requires Inv(r[|r| - 2])
    ensures Stands(r, r[|r| - 2].threads[t])
  {
    hide Inv, StepOf, Reclaimed, FreedByStop;
    var s, s', th := r[|r| - 2], r[|r| - 1], r[|r| - 2].threads[t];
    if InHand(th).To? {
      PlacesMove(s, s', u, found, InHand(th).id);
      ReclaimedLater(r, InHand(th).id);
      if th.Registrar? {
        ExclusiveNow(s);
        assert u < |s.threads| by { StepIsOfThread(s, s', u, found); }
        ScanningIsAlone(s, t, u);
      }
    }
  }

  lemma StepIsOfThread(s: State, s': State, t: nat, found: bool)
    requires StepOf(s, s', t, found)
    ensures t < |s.threads|
  {}

  lemma ExclusiveNow(s: State)
    requires Inv(s)
    ensures Exclusive(s) && Heap(s) && Conserved(s)
  {}

  lemma MoverStands(r: seq<State>, t: nat, found: bool)
    requires Run(r) && |r| > 1 && t < |r[|r| - 2].threads| == |r[|r| - 1].threads|
    requires Stands(r[..|r| - 1], r[|r| - 2].threads[t]) && StepOf(r[|r| - 2], r[|r| - 1], t, found)
    requires Inv(r[|r| - 2])
    ensures Stands(r, r[|r| - 1].threads[t])
  {
    hide Inv, Run, StepOf, Reclaimed, Heap;
    var s, s', p := r[|r| - 2], r[|r| - 1], r[..|r| - 1];
    if InHand(s'.threads[t]).To? {
      ReaderMoves(s, s', t, found);
      var q, q' := InHand(s.threads[t]), InHand(s'.threads[t]);
      ReclaimedLater(r, q'.id);
      if q'.id !in List(s') && q' != q {
        ExclusiveNow(s);
        NextIsPlaced(s, q.id, q'.id);
        if Reclaimed(p, q.id) {
          PrefixRun(r, |p|);
          ReclaimedIsFreed(p, q.id);
        }
      }
    }
  }

  lemma PrefixRun(r: seq<State>, k: nat)
    requires Run(r) && 0 < k <= |r|
    ensures Run(r[..k])
  {
    hide Step, Init;
  }

  lemma {:induction false} AllStand(r: seq<State>)
    requires Run(r)
    ensures forall t :: 0 <= t < |Now(r).threads| ==> Stands(r, Now(r).threads[t])
  {
    hide Inv, After, Stands, Init;
    if |r| == 1 {
      NoneStandsYet(r);
    } else {
      var p := r[..|r| - 1];
      AllStand(p);
      RunInv(p);
      var s, s' := r[|r| - 2], r[|r| - 1];
      assert p[|r| - 2] == s && Step(s, s') && Now(p) == s;
      var u: nat, found: bool :| StepOf(s, s', u, found);
      StepFrame(s, s', u, found);
      forall t | 0 <= t < |s'.threads| ensures Stands(r, s'.threads[t]) {
        if t == u { MoverStands(r, t, found); } else { OthersStand(r, t, u, found); }
      }
    }
  }

  lemma NoneStandsYet(r: seq<State>)
    requires |r| == 1 && Init(r[0])
    ensures forall t :: 0 <= t < |r[0].threads| ==> Stands(r, r[0].threads[t])
  {}

  // ----- main results

  // A thread with no step left: it has finished, or another thread has the mutex.
  predicate Waiting(s: State, th: Thread) {
    match th
    case Adder(a) => a.Finished? || a.Gone? || (s.owner != None && (a.Enter? || a.Own?))
    case Remover(r) => r.Marked? || r.NoMatch?
    case Idle => false
    case Iterator(c) => c.phase.Over?
    case Registrar(r) => r.Registered? || (s.owner != None && r.Await?)
    case Starter(p) => p.Started? || (s.owner != None && p.Open?)
    case Stopper(p) => p.Stopped? || (s.owner != None && p.Close?)
  }

  // The node into which the next step of a thread without the mutex looks: a
  // reader, a removal that marks or hands out its match, an adder that hands out
  // the node it listed.
  function LooksInto(th: Thread): Ptr {
    match th
    case Adder(a) => if a.Tell? then To(a.node) else Null
    case Remover(r) => if r.Consult? then Null else InHand(th)
    case Iterator(c) => if AtNode(c) then c.cur else Null
    case _ => Null
  }

  /** No thread ever follows a null or wild pointer, and a dangling one only outside
      the mutex: whoever has no step left has finished, or waits for the mutex, or is
      a reader, a removal or an adder about to look into a node that a stop has freed.
      In particular an adder that passed its second check never finds the cache stopped. */
  lemma NoThreadIsStuck(r: seq<State>, t: nat, found: bool)
    requires Run(r) && t < |Now(r).threads|
    ensures var s, n := Now(r), LooksInto(Now(r).threads[t]);
            After(s, t, found) == None <==> Waiting(s, s.threads[t]) || (n.To? && Reclaimed(r, n.id))
  {
    var s, n := Now(r), LooksInto(Now(r).threads[t]);
    RunInv(r);
    AllStand(r);
    hide Run, Inv, After, Waiting, Reclaimed;
    if n.To? {
      ExclusiveNow(s);
      if Reclaimed(r, n.id) { ReclaimedIsFreed(r, n.id); } else { PlacedIsThere(s, n.id); }
      ReaderSteps(s, t, found);
    } else {
      OtherSteps(r, t, found);
    }
  }

  lemma ReaderSteps(s: State, t: nat, found: bool)
    requires t < |s.threads| && LooksInto(s.threads[t]).To?
    ensures After(s, t, found) == None <==> !Readable(s, LooksInto(s.threads[t]))
    ensures !Waiting(s, s.threads[t])
  {}

  lemma PlacedIsThere(s: State, n: nat)
    requires Placed(s, n) && Heap(s) && Conserved(s)
    ensures Readable(s, To(n))
  {
    PlacedIsLive(s, n);
    if n in List(s) { InRange(s.mem, List(s), IndexOf(List(s), n)); } else { InRange(s.mem, s.doomed, IndexOf(s.doomed, n)); }
  }

  function IndexOf(ids: seq<nat>, n: nat): (i: nat)
    requires n in ids
    ensures i < |ids| && ids[i] == n
  {
    if ids[0] == n then 0 else 1 + IndexOf(ids[1..], n)
  }

  lemma OtherSteps(r: seq<State>, t: nat, found: bool)
    requires |r| > 0 && t < |Now(r).threads| && Stands(r, Now(r).threads[t])
    requires LooksInto(Now(r).threads[t]) == Null
    requires Inv(Now(r))
    ensures After(Now(r), t, found) == None <==> Waiting(Now(r), Now(r).threads[t])
  {
    hide Inv, Reclaimed, Placed, Conserved, Exclusive, Heap, TouchesLive;
    var s := Now(r);
    Pointers(s, t);
    if Critical(s.threads[t]) {
      OwnerTouchesLive(s, t);
      if s.threads[t].Registrar? && InHand(s.threads[t]).To? {
        ExclusiveNow(s);
        ListedIsLive(s, InHand(s.threads[t]).id);
        RegistrarSteps(s, t);
      } else {
        OwnerSteps(s, t, found);
      }
    } else {
      OutsiderSteps(s, t, found);
    }
  }

  lemma ListedIsLive(s: State, n: nat)
    requires n in List(s) && Conserved(s)
    ensures s.freed[n] == 0
  {
    PlacedIsLive(s, n);
  }

  lemma RegistrarSteps(s: State, t: nat)
    requires t < |s.threads| && s.threads[t].Registrar? && Readable(s, InHand(s.threads[t]))
    ensures After(s, t, false).Some? && After(s, t, true).Some? && !Waiting(s, s.threads[t])
  {}

  lemma OwnerSteps(s: State, t: nat, found: bool)
    requires t < |s.threads| && Critical(s.threads[t]) && TouchesLive(s, s.threads[t])
    requires !(s.threads[t].Registrar? && InHand(s.threads[t]).To?)
    requires s.threads[t].Registrar? ==> !AtNode(s.threads[t].register.scan)
    ensures After(s, t, found).Some? && !Waiting(s, s.threads[t])
  {}

  lemma OutsiderSteps(s: State, t: nat, found: bool)
    requires t < |s.threads| && !Critical(s.threads[t]) && LooksInto(s.threads[t]) == Null
    requires s.threads[t].Iterator? ==> !AtNode(s.threads[t].scan)
    ensures After(s, t, found) == None <==> Waiting(s, s.threads[t])
  {}

  // What the mutex owner reads, writes or frees is live.
  ghost predicate TouchesLive(s: State, th: Thread) {
    match th
    case Adder(a) =>
      && (a.Link? || a.Move? ==> Readable(s, s.tail) && s.tail.id in List(s))
      && (a.Drop? ==> Readable(s, To(a.node)) && !Placed(s, a.node))
    case Starter(p) => p.ClearRoot? ==> Readable(s, To(0))
    case Stopper(p) =>
      && (p.Cut? ==> Readable(s, To(0)))
      && (p.Free? && p.first != Null ==> Readable(s, p.first) && p.first.id in s.doomed)
    case _ => true
  }

  lemma OwnerTouchesLive(s: State, t: nat)
    requires Inv(s) && t < |s.threads| && Critical(s.threads[t])
    ensures TouchesLive(s, s.threads[t])
  {
    hide Inv, Conserved, Linked, Cursors, HeldUnlinked;
    ExclusiveNow(s);
    OwnerNow(s, t);
    InOnePlace(s, 0);
    match s.threads[t]
    case Adder(a) =>
      if a.Link? || a.Move? { TailIsLive(s); }
      if a.Drop? { HeldElsewhere(s, t, a.node); }
    case Stopper(p) =>
      if p.Free? && s.doomed != [] {
        assert s.doomed[0] in s.doomed;
        PlacedIsLive(s, s.doomed[0]);
        InRange(s.mem, s.doomed, 0);
      }
    case _ =>
  }

  lemma TailIsLive(s: State)
    requires Heap(s) && Conserved(s) && s.tail.To?
    requires exists i :: 0 <= i < |List(s)| && s.tail == To(List(s)[i])
    ensures Readable(s, s.tail) && s.tail.id in List(s)
  {
    var i :| 0 <= i < |List(s)| && s.tail == To(List(s)[i]);
    assert List(s)[i] in List(s);
    PlacedIsLive(s, List(s)[i]);
    InRange(s.mem, List(s), i);
  }

  lemma InRange(mem: seq<Node>, ids: seq<nat>, i: nat)
    requires Linked(mem, ids) && i < |ids|
    ensures ids[i] < |mem|
  {}

  /** The code under the mutex never touches freed memory and never frees twice, in
      all runs: an adder links to a listed node and frees only its own, a stop frees
      only what it has cut off, and a registration scans listed nodes only. */
  lemma NoUseAfterFreeUnderLock(r: seq<State>, t: nat)
    requires Run(r) && t < |Now(r).threads| && Critical(Now(r).threads[t])
    ensures var s := Now(r); var th := s.threads[t];
            && TouchesLive(s, th)
            && (th.Registrar? && th.register.scan.cur != Null ==>
                  Readable(s, th.register.scan.cur) && th.register.scan.cur.id in List(s))
  {
    RunInv(r);
    AllStand(r);
    var s := Now(r);
    hide Run, Inv, TouchesLive;
    OwnerTouchesLive(s, t);
    Pointers(s, t);
    if s.threads[t].Registrar? && InHand(s.threads[t]).To? {
      ExclusiveNow(s);
      PlacedIsLive(s, InHand(s.threads[t]).id);
    }
  }
}
