/**
  List and ownership invariants of the binary image cache over all
  interleavings of adders, removers, iterators, registrars, starts and stops.
 */
module ImageOwnership {
  import opened Sums
  import opened Wrappers
  import opened ImageProtocol

  // The list from the root, as the appends since the last start built it.
  function List(s: State): seq<nat> { [0] + s.appended }

  function Last(ids: seq<nat>): nat
    requires ids != []
  {
    ids[|ids| - 1]
  }

  function Head(ids: seq<nat>): Ptr { if ids == [] then Null else To(ids[0]) }

  // Following `next` from the first of ids visits exactly ids and then ends.
  ghost predicate Linked(mem: seq<Node>, ids: seq<nat>) {
    && (forall i :: 0 <= i < |ids| ==> ids[i] < |mem|)
    && forall i {:trigger ids[i]} :: 0 <= i < |ids| ==>
         mem[ids[i]].next == if i + 1 < |ids| then To(ids[i + 1]) else Null
  }

  // The node an adder has allocated and neither published nor freed.
  function Held(th: Thread): multiset<nat> {
    if th.Adder? && (th.add.Own? || th.add.Recheck? || th.add.Drop? || th.add.Link?)
    then multiset{th.add.node} else multiset{}
  }

  predicate Critical(th: Thread) {
    match th
    case Adder(a) => a.Check? || a.Quit? || a.Leave? || a.Recheck? || a.Drop? || a.Link? || a.Move? || a.Exit?
    case Registrar(r) => r.Scanning?
    case Starter(p) => p.Opening? || p.SetTail? || p.ClearRoot? || p.Opened?
    case Stopper(p) => p.Closing? || p.Cut? || p.ClearTail? || p.Free? || p.Closed?
    case _ => false
  }

  // Mutual exclusion: the threads between lock and unlock are the mutex owner.
  ghost predicate Exclusive(s: State) {
    && (s.owner.Some? ==> s.owner.value < |s.threads|)
    && forall t :: 0 <= t < |s.threads| ==> (Critical(s.threads[t]) <==> s.owner == Some(t))
  }

  // Tail null means the root stands alone; otherwise the tail is the last node.
  ghost predicate Settled(s: State) {
    s.doomed == [] && if s.tail == Null then s.appended == [] else s.tail == To(Last(List(s)))
  }

  // Positions at which the owner relies on no more than a settled list.
  predicate Plain(th: Thread) {
    match th
    case Adder(a) => !a.Link? && !a.Move?
    case Starter(p) => p != SetTail && p != ClearRoot
    case Stopper(p) => p != Cut && !p.ClearTail? && !p.Free?
    case _ => true
  }

  // What the mutex protects, by where its owner is.
  ghost predicate Protected(s: State, th: Thread) {
    if Plain(th) then Settled(s)
    else match th
      case Adder(a) =>
        if a.Link? then Settled(s) && s.tail != Null
        else s.appended != [] && s.doomed == [] && Last(s.appended) == a.node &&
             s.tail == To(List(s)[|s.appended| - 1])
      case Starter(p) => Settled(s) && s.tail == if p == SetTail then Null else To(0)
      case Stopper(p) =>
        if p == Cut then Settled(s) && s.tail != Null
        else (s.tail == Null <==> p.Free?) && s.appended == [] && p.first == Head(s.doomed)
  }

  ghost predicate TailInv(s: State)
    requires Exclusive(s)
  {
    if s.owner.None? then Settled(s) else Protected(s, s.threads[s.owner.value])
  }

  ghost predicate Heap(s: State) {
    && |s.mem| > 0 && s.mem[0].addr == 0 && !s.mem[0].available
    && Linked(s.mem, List(s)) && Linked(s.mem, s.doomed)
    && (forall n :: 0 <= n < |s.mem| ==> Valid(s, s.mem[n].next))
    && Valid(s, s.tail)
  }

  // Every pointer a thread is about to follow points into memory.
  ghost predicate Cursor(s: State, th: Thread) {
    match th
    case Remover(r) => (r.Compare? ==> Valid(s, r.cur)) && (r.Follow? || r.Matched? ==> r.at < |s.mem|)
    case Iterator(c) => ScanCursor(s, c)
    case Registrar(r) => (r.Scanning? ==> ScanCursor(s, r.scan))
    case _ => true
  }

  ghost predicate ScanCursor(s: State, c: Scan) {
    Valid(s, c.cur) && (AtNode(c) ==> c.cur != Null)
  }

  ghost predicate Cursors(s: State) {
    forall t :: 0 <= t < |s.threads| ==> Cursor(s, s.threads[t])
  }

  ghost predicate HeldHere(s: State, th: Thread) {
    forall n :: n in Held(th) ==> n < |s.mem| && s.mem[n].next == Null
  }

  ghost predicate HeldUnlinked(s: State) {
    forall t :: 0 <= t < |s.threads| ==> HeldHere(s, s.threads[t])
  }

  // Conservation: every allocated node is in exactly one of the list, a stop's
  // hands, one adder's hands, or freed, and freed at most once.
  ghost predicate Conserved(s: State) {
    multiset(s.appended) + multiset(s.doomed) + Sum(Held, s.threads) + s.freed == Ids(|s.mem|)
  }

  ghost predicate Inv(s: State) {
    Exclusive(s) && TailInv(s) && Heap(s) && Cursors(s) && HeldUnlinked(s) && Conserved(s)
  }

  lemma InitInv(s: State)
    requires Init(s)
    ensures Inv(s)
  {
    InitList(s);
    InitThreads(s);
    hide Init, Exclusive, TailInv, Heap, Cursors, HeldUnlinked, Conserved;
  }

  lemma InitList(s: State)
    requires Init(s)
    ensures Exclusive(s) && TailInv(s) && Heap(s)
  {}

  lemma InitThreads(s: State)
    requires Init(s)
    ensures Cursors(s) && HeldUnlinked(s) && Conserved(s)
  {
    SumEmpty(Held, s.threads);
  }

  // ----- consequences of conservation

  lemma InOnePlace(s: State, n: nat)
    requires Conserved(s)
    ensures multiset(s.appended)[n] + multiset(s.doomed)[n] + Sum(Held, s.threads)[n] + s.freed[n] ==
            if 1 <= n < |s.mem| then 1 else 0
  {
    IdsCount(|s.mem|, n);
    assert (multiset(s.appended) + multiset(s.doomed) + Sum(Held, s.threads) + s.freed)[n] == Ids(|s.mem|)[n];
  }

  lemma ListDistinct(s: State)
    requires Conserved(s)
    ensures Distinct(List(s))
    ensures forall n :: n in s.appended ==> 1 <= n < |s.mem|
  {
    forall n: nat ensures multiset(s.appended)[n] <= if 1 <= n < |s.mem| then 1 else 0 { InOnePlace(s, n); }
    forall n | n in s.appended ensures 1 <= n < |s.mem| { assert multiset(s.appended)[n] >= 1; }
    forall n: nat ensures multiset(List(s))[n] <= 1 {
      assert multiset(List(s))[n] == multiset{0}[n] + multiset(s.appended)[n];
      if n == 0 && 0 in s.appended { assert false; }
    }
    DistinctFromCount(List(s));
  }

  lemma HeldElsewhere(s: State, t: nat, n: nat)
    requires Conserved(s) && t < |s.threads| && n in Held(s.threads[t])
    ensures 1 <= n < |s.mem| && n !in s.appended && n !in s.doomed && s.freed[n] == 0
    ensures forall u :: 0 <= u < |s.threads| && n in Held(s.threads[u]) ==> u == t
  {
    InOnePlace(s, n);
    SumAt(Held, s.threads, t, n);
    forall u | 0 <= u < |s.threads| && n in Held(s.threads[u]) ensures u == t {
      if u != t {
        SumTwo(Held, s.threads, t, u, Idle, n);
        assert false;
      }
    }
  }

  // ----- what one step may do, and why that is enough

  // The mutex and the critical region of the moving thread.
  ghost predicate LockStep(s: State, s': State, t: nat) {
    && t < |s.threads| == |s'.threads| && s'.threads == s.threads[t := s'.threads[t]]
    && (|| (s'.owner == s.owner && Critical(s'.threads[t]) == Critical(s.threads[t]))
        || (s.owner == None && s'.owner == Some(t) && Critical(s'.threads[t]))
        || (Critical(s.threads[t]) && s'.owner == None && !Critical(s'.threads[t])))
  }

  // A thread outside the critical region leaves the list alone; inside, it
  // establishes what the next position relies on.
  ghost predicate OwnerStep(s: State, s': State, t: nat)
    requires t < |s.threads| == |s'.threads|
  {
    if Critical(s'.threads[t]) then Protected(s', s'.threads[t])
    else if Critical(s.threads[t]) then Settled(s')
    else s'.tail == s.tail && s'.appended == s.appended && s'.doomed == s.doomed
  }

  // Only links of listed nodes are written, and memory is never taken away.
  ghost predicate LinkStep(s: State, s': State) {
    && |s.mem| <= |s'.mem|
    && forall n :: 0 <= n < |s.mem| && s'.mem[n].next != s.mem[n].next ==> n == 0 || n in s.appended
  }

  // The one node, or the whole list, that a step moves between owners.
  datatype Transfer = Stay | Allocate | Publish(n: nat) | Discard(n: nat) | CutOff | Reclaim(n: nat)

  ghost predicate Moves(s: State, s': State, t: nat, m: Transfer)
    requires t < |s.threads| == |s'.threads|
  {
    var before, after := Held(s.threads[t]), Held(s'.threads[t]);
    match m
    case Stay =>
      after == before && s'.appended == s.appended && s'.doomed == s.doomed && s'.freed == s.freed &&
      |s'.mem| == |s.mem|
    case Allocate =>
      before == multiset{} && after == multiset{|s.mem|} && |s'.mem| == |s.mem| + 1 && |s.mem| > 0 &&
      s'.appended == s.appended && s'.doomed == s.doomed && s'.freed == s.freed
    case Publish(n) =>
      before == multiset{n} && after == multiset{} && s'.appended == s.appended + [n] &&
      s'.doomed == s.doomed && s'.freed == s.freed && |s'.mem| == |s.mem|
    case Discard(n) =>
      before == multiset{n} && after == multiset{} && s'.freed == s.freed + multiset{n} &&
      s'.appended == s.appended && s'.doomed == s.doomed && |s'.mem| == |s.mem|
    case CutOff =>
      after == before && s.doomed == [] && s'.doomed == s.appended && s'.appended == [] &&
      s'.freed == s.freed && |s'.mem| == |s.mem|
    case Reclaim(n) =>
      after == before && s.doomed == [n] + s'.doomed && s'.freed == s.freed + multiset{n} &&
      s'.appended == s.appended && |s'.mem| == |s.mem|
  }

  lemma KeepsExclusive(s: State, s': State, t: nat)
    requires Exclusive(s) && LockStep(s, s', t)
    ensures Exclusive(s')
  {}

  lemma KeepsTailInv(s: State, s': State, t: nat)
    requires Exclusive(s) && TailInv(s) && LockStep(s, s', t) && OwnerStep(s, s', t)
    ensures Exclusive(s') && TailInv(s')
  {
    KeepsExclusive(s, s', t);
  }

  lemma KeepsCursors(s: State, s': State, t: nat)
    requires Cursors(s) && LockStep(s, s', t) && |s.mem| <= |s'.mem| && Cursor(s', s'.threads[t])
    ensures Cursors(s')
  {}

  lemma KeepsHeldUnlinked(s: State, s': State, t: nat)
    requires HeldUnlinked(s) && Conserved(s) && LockStep(s, s', t) && LinkStep(s, s')
    requires HeldHere(s', s'.threads[t])
    ensures HeldUnlinked(s')
  {
    forall u | 0 <= u < |s'.threads| && u != t ensures HeldHere(s', s'.threads[u]) {
      assert HeldHere(s, s.threads[u]);
      forall n | n in Held(s.threads[u]) ensures s'.mem[n].next == Null {
        HeldElsewhere(s, u, n);
      }
    }
  }

  // Moving one element between parts of a sum.
  lemma Shifted(a: multiset<nat>, d: multiset<nat>, h: multiset<nat>, f: multiset<nat>, one: multiset<nat>)
    ensures (a + one) + d + h + f == a + d + (h + one) + f
    ensures a + d + h + (f + one) == a + d + (h + one) + f
    ensures a + d + h + (f + one) == a + (one + d) + h + f
    ensures a + d + (h + one) + f == a + d + h + f + one
  {}

  lemma KeepsConserved(s: State, s': State, t: nat, m: Transfer)
    requires Conserved(s) && LockStep(s, s', t) && Moves(s, s', t, m)
    ensures Conserved(s')
  {
    hide Sum, Ids, Held;
    var held, held' := Sum(Held, s.threads), Sum(Held, s'.threads);
    SumChange(Held, s.threads, t, s'.threads[t]);
    var a, d, f := multiset(s.appended), multiset(s.doomed), s.freed;
    match m
    case Stay =>
    case Allocate =>
      Shifted(a, d, held, f, multiset{|s.mem|});
      NextId(|s.mem|);
    case Publish(n) =>
      Shifted(a, d, held', f, multiset{n});
      assert multiset(s'.appended) == a + multiset{n};
    case Discard(n) => Shifted(a, d, held', f, multiset{n});
    case CutOff => assert a + multiset{} == multiset{} + a;
    case Reclaim(n) => Shifted(a, multiset(s'.doomed), held', f, multiset{n});
  }

  lemma NextId(n: nat)
    requires n > 0
    ensures Ids(n + 1) == Ids(n) + multiset{n}
  {}

  lemma Keeps(s: State, s': State, t: nat, m: Transfer)
    requires Inv(s) && LockStep(s, s', t) && OwnerStep(s, s', t) && LinkStep(s, s') && Moves(s, s', t, m)
    requires Cursor(s', s'.threads[t]) && HeldHere(s', s'.threads[t]) && Heap(s')
    ensures Inv(s')
  {
    hide Exclusive, TailInv, Heap, Cursors, HeldUnlinked, Conserved, OwnerStep, Moves, HeldHere, Cursor;
    KeepsTailInv(s, s', t);
    KeepsCursors(s, s', t);
    KeepsHeldUnlinked(s, s', t);
    KeepsConserved(s, s', t, m);
  }

  // A step that leaves the list, the heap and every node where it is.
  ghost predicate Quietly(s: State, s': State, t: nat) {
    && LockStep(s, s', t)
    && s'.mem == s.mem && s'.tail == s.tail && s'.appended == s.appended
    && s'.doomed == s.doomed && s'.freed == s.freed
    && Held(s'.threads[t]) == Held(s.threads[t])
  }

  lemma QuietKeeps(s: State, s': State, t: nat)
    requires Inv(s) && Quietly(s, s', t) && Plain(s.threads[t]) && Cursor(s', s'.threads[t])
    requires !Plain(s'.threads[t]) ==> Protected(s', s'.threads[t])
    ensures Inv(s')
  {
    hide Linked, Conserved, Cursors, HeldUnlinked, Cursor;
    HeldNow(s, t);
    assert Critical(s'.threads[t]) && !Critical(s.threads[t]) ==> s.owner == None;
    assert HeldHere(s', s'.threads[t]);
    assert OwnerStep(s, s', t);
    assert Heap(s');
    Keeps(s, s', t, Stay);
  }

  lemma Pointers(s: State, t: nat)
    requires Inv(s) && t < |s.threads|
    ensures |s.mem| > 0 && Cursor(s, s.threads[t])
    ensures forall n :: 0 <= n < |s.mem| ==> Valid(s, s.mem[n].next)
  {}

  // ----- binaryImageAdded

  lemma AddKeeps(s: State, t: nat, pc: Add, found: bool)
    requires Inv(s) && t < |s.threads| && s.threads[t] == Adder(pc) && AddStep(s, t, pc, found).Some?
    ensures Inv(AddStep(s, t, pc, found).value)
  {
    hide Inv, AddStep;
    AddReadable(s, t, pc, found);
    match pc
    case Build(a) => if found { BuildKeeps(s, t, a, found); } else { AddQuiet(s, t, pc, found); }
    case Recheck(n) => RecheckKeeps(s, t, n, found);
    case Drop(n) => DropKeeps(s, t, n, found);
    case Link(n) => LinkKeeps(s, t, n, found);
    case Move(n) => MoveKeeps(s, t, n, found);
    case _ => AddQuiet(s, t, pc, found);
  }

  // Where an adder goes next; after its end, nowhere.
  function NextAdd(s: State, pc: Add, found: bool): Add {
    match pc
    case Enter(a) => Check(a)
    case Check(a) => if s.tail == Null then Quit else Leave(a)
    case Quit => Gone
    case Leave(a) => Build(a)
    case Build(a) => if found then Own(|s.mem|) else Gone
    case Own(n) => Recheck(n)
    case Recheck(n) => if s.tail == Null then Drop(n) else Link(n)
    case Drop(n) => Quit
    case Link(n) => Move(n)
    case Move(n) => Exit(n)
    case Exit(n) => Notify(n)
    case Notify(n) => if s.callback then Tell(n) else Finished(n, false)
    case Tell(n) => Finished(n, true)
    case _ => pc
  }

  lemma AddGoes(s: State, t: nat, pc: Add, found: bool)
    requires t < |s.threads| && AddStep(s, t, pc, found).Some?
    ensures var s' := AddStep(s, t, pc, found).value;
            |s'.threads| == |s.threads| && s'.threads[t] == Adder(NextAdd(s, pc, found))
  {
    match pc
    case Enter(_) => case Check(_) => case Quit => case Leave(_) => case Build(_) => case Own(_) => case Recheck(_) =>
    case Drop(_) => case Link(_) => case Move(_) => case Exit(_) => case Notify(_) => case Tell(_) =>
  }

  lemma AddReadable(s: State, t: nat, pc: Add, found: bool)
    requires t < |s.threads| && AddStep(s, t, pc, found).Some?
    ensures pc.Link? || pc.Move? ==> Readable(s, s.tail)
  {}

  lemma AddQuiet(s: State, t: nat, pc: Add, found: bool)
    requires Inv(s) && t < |s.threads| && s.threads[t] == Adder(pc) && AddStep(s, t, pc, found).Some?
    requires !pc.Recheck? && !pc.Drop? && !pc.Link? && !pc.Move? && (pc.Build? ==> !found)
    ensures Inv(AddStep(s, t, pc, found).value)
  {
    hide Inv, Protected, Heap, AddStep;
    var s' := AddStep(s, t, pc, found).value;
    AddQuietly(s, t, pc, found);
    QuietKeeps(s, s', t);
  }

  lemma AddQuietly(s: State, t: nat, pc: Add, found: bool)
    requires t < |s.threads| && s.threads[t] == Adder(pc) && AddStep(s, t, pc, found).Some?
    requires !pc.Recheck? && !pc.Drop? && !pc.Link? && !pc.Move? && (pc.Build? ==> !found)
    ensures var s' := AddStep(s, t, pc, found).value;
            Quietly(s, s', t) && s'.threads[t].Adder? && Plain(s'.threads[t])
  {
    AddGoes(s, t, pc, found);
    AddTouchesNothing(s, t, pc, found);
    hide AddStep;
  }

  lemma AddTouchesNothing(s: State, t: nat, pc: Add, found: bool)
    requires t < |s.threads| && AddStep(s, t, pc, found).Some?
    requires !pc.Drop? && !pc.Link? && !pc.Move? && (pc.Build? ==> !found)
    ensures var s' := AddStep(s, t, pc, found).value;
            && s'.mem == s.mem && s'.tail == s.tail && s'.appended == s.appended
            && s'.doomed == s.doomed && s'.freed == s.freed
            && |s'.threads| == |s.threads| && s'.threads == s.threads[t := s'.threads[t]]
            && (pc.Enter? || pc.Own? ==> s.owner == None)
            && s'.owner == (if pc.Enter? || pc.Own? then Some(t) else if pc.Quit? || pc.Leave? || pc.Exit? then None
                            else s.owner)
  {}

  lemma RecheckKeeps(s: State, t: nat, n: nat, found: bool)
    requires Inv(s) && t < |s.threads| && s.threads[t] == Adder(Recheck(n))
    ensures Inv(AddStep(s, t, Recheck(n), found).value)
  {
    RecheckSteps(s, t, n, found);
    hide Inv, AddStep, Linked;
    AddGoes(s, t, Recheck(n), found);
    AddTouchesNothing(s, t, Recheck(n), found);
    OwnerNow(s, t);
    QuietKeeps(s, AddStep(s, t, Recheck(n), found).value, t);
  }

  lemma RecheckSteps(s: State, t: nat, n: nat, found: bool)
    requires t < |s.threads|
    ensures AddStep(s, t, Recheck(n), found).Some?
  {}

  lemma BuildKeeps(s: State, t: nat, a: nat, found: bool)
    requires Inv(s) && t < |s.threads| && s.threads[t] == Adder(Build(a)) && found
    ensures Inv(AddStep(s, t, Build(a), found).value)
  {
    hide Linked, Conserved, Cursors, HeldUnlinked;
    LinkedGrow(s.mem, Node(a, true, Null), List(s));
    LinkedGrow(s.mem, Node(a, true, Null), s.doomed);
    Keeps(s, AddStep(s, t, Build(a), found).value, t, Allocate);
  }

  lemma DropKeeps(s: State, t: nat, n: nat, found: bool)
    requires Inv(s) && t < |s.threads| && s.threads[t] == Adder(Drop(n))
    ensures Inv(AddStep(s, t, Drop(n), found).value)
  {
    hide Linked, Conserved, Cursors, HeldUnlinked;
    Keeps(s, AddStep(s, t, Drop(n), found).value, t, Discard(n));
  }

  lemma LinkKeeps(s: State, t: nat, n: nat, found: bool)
    requires Inv(s) && t < |s.threads| && s.threads[t] == Adder(Link(n)) && Readable(s, s.tail)
    ensures Inv(AddStep(s, t, Link(n), found).value)
  {
    hide Linked, Conserved, Cursors, HeldUnlinked, Distinct;
    var s' := AddStep(s, t, Link(n), found).value;
    ListDistinct(s);
    HeldElsewhere(s, t, n);
    HeldNow(s, t);
    assert List(s') == List(s) + [n];
    LinkedAppend(s.mem, List(s), n);
    LinkedElsewhere(s.mem, s.tail.id, To(n), s.doomed);
    Keeps(s, s', t, Publish(n));
  }

  lemma HeldNow(s: State, t: nat)
    requires HeldUnlinked(s) && t < |s.threads|
    ensures HeldHere(s, s.threads[t])
  {}

  lemma LinkedGrow(mem: seq<Node>, node: Node, ids: seq<nat>)
    requires Linked(mem, ids)
    ensures Linked(mem + [node], ids)
  {}

  // Writing the last node's link to a fresh node extends the list.
  lemma LinkedAppend(mem: seq<Node>, ids: seq<nat>, n: nat)
    requires ids != [] && Linked(mem, ids) && Distinct(ids) && n !in ids
    requires n < |mem| && mem[n].next == Null
    ensures Last(ids) < |mem| && Linked(mem[Last(ids) := mem[Last(ids)].(next := To(n))], ids + [n])
  {
    var mem', all := mem[Last(ids) := mem[Last(ids)].(next := To(n))], ids + [n];
    forall i | 0 <= i < |all|
      ensures mem'[all[i]].next == if i + 1 < |all| then To(all[i + 1]) else Null
    {
      if i < |ids| { assert all[i] == ids[i]; }
    }
  }

  lemma LinkedElsewhere(mem: seq<Node>, m: nat, p: Ptr, ids: seq<nat>)
    requires Linked(mem, ids) && m < |mem| && m !in ids
    ensures Linked(mem[m := mem[m].(next := p)], ids)
  {}

  lemma MoveKeeps(s: State, t: nat, n: nat, found: bool)
    requires Inv(s) && t < |s.threads| && s.threads[t] == Adder(Move(n)) && Readable(s, s.tail)
    ensures Inv(AddStep(s, t, Move(n), found).value)
  {
    hide Conserved, Cursors, HeldUnlinked;
    assert List(s)[|s.appended|] == n;
    assert s.mem[s.tail.id].next == To(n);
    MoveKeepsRest(s, t, n, found);
  }

  lemma MoveKeepsRest(s: State, t: nat, n: nat, found: bool)
    requires Inv(s) && t < |s.threads| && s.threads[t] == Adder(Move(n))
    requires Readable(s, s.tail) && s.mem[s.tail.id].next == To(n)
    ensures Inv(AddStep(s, t, Move(n), found).value)
  {
    hide Linked, Conserved, Cursors, HeldUnlinked;
    Keeps(s, AddStep(s, t, Move(n), found).value, t, Stay);
  }

  // ----- binaryImageRemoved and the iterations

  lemma RemoveKeeps(s: State, t: nat, pc: Remove, found: bool)
    requires Inv(s) && t < |s.threads| && s.threads[t] == Remover(pc) && RemoveStep(s, t, pc, found).Some?
    ensures Inv(RemoveStep(s, t, pc, found).value)
  {
    hide Inv, Protected, RemoveStep;
    Pointers(s, t);
    if pc.Matched? {
      MarkKeeps(s, t, pc, found);
    } else {
      RemoveQuietly(s, t, pc, found);
      QuietKeeps(s, RemoveStep(s, t, pc, found).value, t);
    }
  }

  lemma RemoveQuietly(s: State, t: nat, pc: Remove, found: bool)
    requires t < |s.threads| && s.threads[t] == Remover(pc) && RemoveStep(s, t, pc, found).Some? && !pc.Matched?
    requires forall n :: 0 <= n < |s.mem| ==> Valid(s, s.mem[n].next)
    ensures var s' := RemoveStep(s, t, pc, found).value;
            Quietly(s, s', t) && s'.threads[t].Remover? && Cursor(s', s'.threads[t])
  {
    match pc
    case Compare(_, _, _) =>
    case Follow(_, _, _) =>
    case Consult(_) =>
    case Hand(_) =>
  }

  lemma MarkKeeps(s: State, t: nat, pc: Remove, found: bool)
    requires Inv(s) && t < |s.threads| && s.threads[t] == Remover(pc) && pc.Matched?
    requires RemoveStep(s, t, pc, found).Some?
    ensures Inv(RemoveStep(s, t, pc, found).value)
  {
    hide Conserved, Cursors, HeldUnlinked, Protected, Linked;
    LinkedMark(s.mem, pc.at, List(s));
    LinkedMark(s.mem, pc.at, s.doomed);
    Keeps(s, RemoveStep(s, t, pc, found).value, t, Stay);
  }

  lemma LinkedMark(mem: seq<Node>, m: nat, ids: seq<nat>)
    requires Linked(mem, ids) && m < |mem|
    ensures Linked(mem[m := mem[m].(available := false)], ids)
  {}

  lemma BeginKeeps(s: State, t: nat)
    requires Inv(s) && t < |s.threads| && s.threads[t] == Idle
    ensures Inv(Goto(s, t, Iterator(NewScan(s))))
  {
    hide Inv, Protected;
    Pointers(s, t);
    QuietKeeps(s, Goto(s, t, Iterator(NewScan(s))), t);
  }

  lemma ScanKeeps(s: State, t: nat, c: Scan)
    requires Inv(s) && t < |s.threads| && s.threads[t] == Iterator(c) && CanScan(s, c)
    ensures Inv(Goto(s, t, Iterator(ScanStep(s, c))))
  {
    hide Inv, Protected;
    Pointers(s, t);
    QuietKeeps(s, Goto(s, t, Iterator(ScanStep(s, c))), t);
  }

  lemma RegisterKeeps(s: State, t: nat, pc: Register)
    requires Inv(s) && t < |s.threads| && s.threads[t] == Registrar(pc) && RegisterStep(s, t, pc).Some?
    ensures Inv(RegisterStep(s, t, pc).value)
  {
    hide Inv, Protected, RegisterStep;
    Pointers(s, t);
    RegisterQuietly(s, t, pc);
    QuietKeeps(s, RegisterStep(s, t, pc).value, t);
  }

  lemma RegisterQuietly(s: State, t: nat, pc: Register)
    requires t < |s.threads| && s.threads[t] == Registrar(pc) && RegisterStep(s, t, pc).Some?
    requires |s.mem| > 0 && Cursor(s, Registrar(pc))
    requires forall n :: 0 <= n < |s.mem| ==> Valid(s, s.mem[n].next)
    ensures var s' := RegisterStep(s, t, pc).value;
            Quietly(s, s', t) && s'.threads[t].Registrar? && Cursor(s', s'.threads[t])
  {
    match pc
    case Announce =>
    case Await =>
    case Scanning(c) =>
  }

  // ----- startCache and stopCache

  lemma OwnerNow(s: State, t: nat)
    requires Inv(s) && t < |s.threads| && Critical(s.threads[t])
    ensures s.owner == Some(t) && Protected(s, s.threads[t])
  {}

  lemma StartKeeps(s: State, t: nat, pc: Start)
    requires Inv(s) && t < |s.threads| && s.threads[t] == Starter(pc) && StartStep(s, t, pc).Some?
    ensures Inv(StartStep(s, t, pc).value)
  {
    hide Inv;
    match pc
    case Opening => OwnerNow(s, t); QuietKeeps(s, StartStep(s, t, pc).value, t);
    case SetTail => SetTailKeeps(s, t);
    case ClearRoot => ClearRootKeeps(s, t);
    case Open => QuietKeeps(s, StartStep(s, t, pc).value, t);
    case Opened => QuietKeeps(s, StartStep(s, t, pc).value, t);
    case Started =>
  }

  lemma SetTailKeeps(s: State, t: nat)
    requires Inv(s) && t < |s.threads| && s.threads[t] == Starter(SetTail)
    ensures Inv(StartStep(s, t, SetTail).value)
  {
    hide Conserved, Cursors, HeldUnlinked, Linked;
    OwnerNow(s, t);
    Keeps(s, StartStep(s, t, SetTail).value, t, Stay);
  }

  // The root's link was already null: the list is empty until the mutex is released.
  lemma ClearRootKeeps(s: State, t: nat)
    requires Inv(s) && t < |s.threads| && s.threads[t] == Starter(ClearRoot) && Readable(s, To(0))
    ensures Inv(StartStep(s, t, ClearRoot).value)
  {
    hide Conserved, Cursors, HeldUnlinked;
    OwnerNow(s, t);
    ListDistinct(s);
    assert List(s)[0] == 0 && Last(List(s)) == List(s)[|s.appended|];
    assert s.appended == [];
    assert List(s)[0] == 0 && s.mem[0].next == Null;
    assert s.mem[0 := s.mem[0].(next := Null)] == s.mem;
    ClearRootIdle(s, t);
  }

  lemma ClearRootIdle(s: State, t: nat)
    requires Inv(s) && t < |s.threads| && s.threads[t] == Starter(ClearRoot) && Readable(s, To(0))
    requires s.mem[0 := s.mem[0].(next := Null)] == s.mem
    ensures Inv(StartStep(s, t, ClearRoot).value)
  {
    hide Conserved, Cursors, HeldUnlinked, Linked;
    OwnerNow(s, t);
    Keeps(s, StartStep(s, t, ClearRoot).value, t, Stay);
  }

  lemma StopKeeps(s: State, t: nat, pc: Stop)
    requires Inv(s) && t < |s.threads| && s.threads[t] == Stopper(pc) && StopStep(s, t, pc).Some?
    ensures Inv(StopStep(s, t, pc).value)
  {
    hide Inv;
    match pc
    case Closing => OwnerNow(s, t); QuietKeeps(s, StopStep(s, t, pc).value, t);
    case Cut => CutKeeps(s, t);
    case ClearTail(p) => ClearTailKeeps(s, t, p);
    case Free(p) => FreeKeeps(s, t, p);
    case Close => QuietKeeps(s, StopStep(s, t, pc).value, t);
    case Closed => QuietKeeps(s, StopStep(s, t, pc).value, t);
    case Stopped =>
  }

  lemma CutKeeps(s: State, t: nat)
    requires Inv(s) && t < |s.threads| && s.threads[t] == Stopper(Cut) && Readable(s, To(0))
    ensures Inv(StopStep(s, t, Cut).value)
  {
    hide Heap, Conserved, Cursors, HeldUnlinked;
    OwnerNow(s, t);
    CutHeap(s, t);
    Keeps(s, StopStep(s, t, Cut).value, t, CutOff);
  }

  // Cutting the root's link leaves the rest of the list intact in the stop's hands.
  lemma CutHeap(s: State, t: nat)
    requires Heap(s) && Conserved(s) && t < |s.threads| && s.threads[t] == Stopper(Cut) && Readable(s, To(0))
    ensures Heap(StopStep(s, t, Cut).value) && s.mem[0].next == Head(s.appended)
  {
    hide Conserved, Distinct, Linked;
    ListDistinct(s);
    LinkedTail(s.mem, List(s));
    assert List(s)[1..] == s.appended;
    LinkedElsewhere(s.mem, 0, Null, s.appended);
    LinkedRoot(s.mem);
    assert List(StopStep(s, t, Cut).value) == [0];
  }

  lemma LinkedRoot(mem: seq<Node>)
    requires |mem| > 0
    ensures Linked(mem[0 := mem[0].(next := Null)], [0]) && Linked(mem, [])
  {}

  lemma LinkedTail(mem: seq<Node>, ids: seq<nat>)
    requires ids != [] && Linked(mem, ids)
    ensures Linked(mem, ids[1..]) && ids[0] < |mem| && mem[ids[0]].next == Head(ids[1..])
  {
    assert forall i :: 0 <= i < |ids[1..]| ==> ids[1..][i] == ids[i + 1];
  }

  lemma ClearTailKeeps(s: State, t: nat, p: Ptr)
    requires Inv(s) && t < |s.threads| && s.threads[t] == Stopper(ClearTail(p))
    ensures Inv(StopStep(s, t, ClearTail(p)).value)
  {
    hide Conserved, Cursors, HeldUnlinked, Linked;
    OwnerNow(s, t);
    Keeps(s, StopStep(s, t, ClearTail(p)).value, t, Stay);
  }

  lemma FreeKeeps(s: State, t: nat, p: Ptr)
    requires Inv(s) && t < |s.threads| && s.threads[t] == Stopper(Free(p)) && (p == Null || Readable(s, p))
    ensures Inv(StopStep(s, t, Free(p)).value)
  {
    hide Inv, Heap, Conserved, Cursors, HeldUnlinked, Linked, Exclusive, TailInv;
    HeapOf(s);
    OwnerNow(s, t);
    FreeHeap(s, t, p);
    HeldByNone(s, StopStep(s, t, Free(p)).value, t);
    Keeps(s, StopStep(s, t, Free(p)).value, t, if p == Null then Stay else Reclaim(p.id));
  }

  lemma HeapOf(s: State)
    requires Inv(s)
    ensures Heap(s)
  {}

  lemma HeldByNone(s: State, s': State, t: nat)
    requires t < |s'.threads| && s'.threads[t].Stopper?
    ensures HeldHere(s', s'.threads[t]) && Cursor(s', s'.threads[t])
  {}

  // What is left in the stop's hands stays linked.
  lemma FreeHeap(s: State, t: nat, p: Ptr)
    requires Heap(s) && t < |s.threads| && s.threads[t] == Stopper(Free(p)) && (p == Null || Readable(s, p))
    requires p == Head(s.doomed)
    ensures Heap(StopStep(s, t, Free(p)).value)
    ensures p != Null ==> s.doomed == [p.id] + s.doomed[1..] && s.mem[p.id].next == Head(s.doomed[1..])
  {
    hide Linked;
    if p != Null { LinkedTail(s.mem, s.doomed); }
  }

  // ----- every step, every run

  lemma StepKeeps(s: State, s': State)
    requires Inv(s) && Step(s, s')
    ensures Inv(s')
  {
    hide Inv, AddStep, RemoveStep, RegisterStep, StartStep, StopStep;
    var t: nat, found: bool :| StepOf(s, s', t, found);
    match s.threads[t]
    case Adder(pc) => AddKeeps(s, t, pc, found);
    case Remover(pc) => RemoveKeeps(s, t, pc, found);
    case Idle => BeginKeeps(s, t);
    case Iterator(c) => ScanKeeps(s, t, c);
    case Registrar(pc) => RegisterKeeps(s, t, pc);
    case Starter(pc) => StartKeeps(s, t, pc);
    case Stopper(pc) => StopKeeps(s, t, pc);
  }

  lemma {:induction false} RunInv(r: seq<State>)
    requires Run(r)
    ensures forall i :: 0 <= i < |r| ==> Inv(r[i])
  {
    hide Inv, Step, Init;
    if |r| == 1 {
      InitInv(r[0]);
    } else {
      RunInv(r[..|r| - 1]);
      StepKeeps(r[|r| - 2], r[|r| - 1]);
    }
  }

  // ----- main results

  /** At every point of every interleaving the nodes reachable from the root form
      an acyclic list, and each allocated node is in exactly one place: that list,
      a stop's hands, one adder's hands, or freed exactly once. */
  lemma ListAndOwnership(r: seq<State>, i: nat)
    requires Run(r) && i < |r|
    ensures var s := r[i];
            && Linked(s.mem, List(s)) && Distinct(List(s))
            && (s.owner == None ==> Settled(s))
            && forall n: nat ::
                 multiset(s.appended)[n] + multiset(s.doomed)[n] + Sum(Held, s.threads)[n] + s.freed[n] ==
                 if 1 <= n < |s.mem| then 1 else 0
  {
    hide Run, Linked, Distinct, Exclusive, Cursors, HeldUnlinked;
    RunInv(r);
    if r[i].owner == None { Unlocked(r[i]); }
    ListDistinct(r[i]);
    forall n: nat ensures multiset(r[i].appended)[n] + multiset(r[i].doomed)[n] + Sum(Held, r[i].threads)[n]
                          + r[i].freed[n] == if 1 <= n < |r[i].mem| then 1 else 0
    {
      InOnePlace(r[i], n);
    }
  }

  lemma Unlocked(s: State)
    requires Inv(s) && s.owner == None
    ensures Settled(s)
  {}
}
