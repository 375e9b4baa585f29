/**
  The binary image cache as interleaved atomic steps.  Any number of threads
  add, remove, iterate, register, start and stop; each step is one access to
  shared memory, one mutex operation or one callback, under sequential consistency.

  Node identities index `mem`; node 0 is the static root and malloc appends.
  `freed` counts the calls of free; a step that would look into a freed node does
  not exist.  `appended`, `doomed` and `reports` are history: the order of the
  appends since the last start, the nodes a stop has cut off and not yet freed,
  and the calls of the added callback.
 */
module ImageProtocol {

  import opened Wrappers

  datatype Ptr = Null | To(id: nat)
  datatype Node = Node(addr: nat, available: bool, next: Ptr)

  // A pass of the lock-free iteration: the loop guard reads the tail, the test
  // reads `available`, an available node is delivered to the callback, the advance
  // reads `next`.  `seen` and `floor` are history: the nodes passed, found
  // unavailable or delivered, and how many were in the list when the pass began.
  datatype Phase = Guard | Test | Deliver | Advance | Over
  datatype Seen = Seen(node: nat, available: bool)
  datatype Scan = Scan(cur: Ptr, phase: Phase, seen: seq<Seen>, floor: nat)

  // binaryImageAdded: Check to Leave and Recheck to Exit hold the mutex; Notify
  // looks for the callback and Tell hands it the node.
  datatype Add =
    | Enter(addr: nat) | Check(addr: nat) | Quit | Leave(addr: nat) | Build(addr: nat)
    | Own(node: nat) | Recheck(node: nat) | Drop(node: nat)
    | Link(node: nat) | Move(node: nat) | Exit(node: nat) | Notify(node: nat) | Tell(node: nat)
    | Finished(node: nat, told: bool) | Gone

  // binaryImageRemoved, which takes no lock.  `passed` is history: the nodes
  // found to have other addresses.  Consult looks for the callback and Hand passes
  // it the node.
  datatype Remove =
    | Compare(addr: nat, cur: Ptr, passed: seq<nat>)
    | Follow(addr: nat, at: nat, passed: seq<nat>)
    | Matched(addr: nat, at: nat, passed: seq<nat>)
    | Consult(node: nat) | Hand(node: nat) | Marked(node: nat) | NoMatch

  datatype Register = Announce | Await | Scanning(scan: Scan) | Registered(scan: Scan)

  datatype Start = Open | Opening | SetTail | ClearRoot | Opened | Started

  datatype Stop = Close | Closing | Cut | ClearTail(first: Ptr) | Free(first: Ptr) | Closed | Stopped

  datatype Thread =
    | Adder(add: Add)
    | Remover(remove: Remove)
    | Idle                 // an iteration not yet begun
    | Iterator(scan: Scan)
    | Registrar(register: Register)
    | Starter(start: Start)
    | Stopper(stop: Stop)

  datatype State = State(
    mem: seq<Node>, tail: Ptr, owner: Option<nat>, callback: bool, threads: seq<Thread>,
    appended: seq<nat>, doomed: seq<nat>, freed: multiset<nat>, reports: multiset<nat>)

  predicate Initial(th: Thread) {
    match th
    case Adder(a) => a.Enter?
    case Remover(r) => r.Compare? && r.cur == To(0) && r.passed == []
    case Idle => true
    case Iterator(_) => false
    case Registrar(r) => r == Announce
    case Starter(p) => p == Open
    case Stopper(p) => p == Close
  }

  ghost predicate Init(s: State) {
    && s.mem == [Node(0, false, Null)] && s.tail == Null && s.owner == None && !s.callback
    && s.appended == s.doomed == [] && s.freed == s.reports == multiset{}
    && forall t :: 0 <= t < |s.threads| ==> Initial(s.threads[t])
  }

  function Goto(s: State, t: nat, th: Thread): State
    requires t < |s.threads|
  {
    s.(threads := s.threads[t := th])
  }

  function Lock(s: State, t: nat, th: Thread): Option<State>
    requires t < |s.threads|
  {
    if s.owner == None then Some(Goto(s, t, th).(owner := Some(t))) else None
  }

  function Unlock(s: State, t: nat, th: Thread): State
    requires t < |s.threads|
  {
    Goto(s, t, th).(owner := None)
  }

  predicate Valid(s: State, p: Ptr) { p.To? ==> p.id < |s.mem| }

  // A dereference: a wild or dangling pointer has no step.
  predicate Readable(s: State, p: Ptr) { p.To? && p.id < |s.mem| && s.freed[p.id] == 0 }

  // `found` is the outcome of looking the image up.
  function AddStep(s: State, t: nat, pc: Add, found: bool): Option<State>
    requires t < |s.threads|
  {
    match pc
    case Enter(a) => Lock(s, t, Adder(Check(a)))
    case Check(a) => Some(Goto(s, t, Adder(if s.tail == Null then Quit else Leave(a))))
    case Quit => Some(Unlock(s, t, Adder(Gone)))
    case Leave(a) => Some(Unlock(s, t, Adder(Build(a))))
    case Build(a) =>
      if !found then Some(Goto(s, t, Adder(Gone)))
      else Some(Goto(s, t, Adder(Own(|s.mem|))).(mem := s.mem + [Node(a, true, Null)]))
    case Own(n) => Lock(s, t, Adder(Recheck(n)))
    case Recheck(n) => Some(Goto(s, t, Adder(if s.tail == Null then Drop(n) else Link(n))))
    case Drop(n) => Some(Goto(s, t, Adder(Quit)).(freed := s.freed + multiset{n}))
    case Link(n) =>
      if !Readable(s, s.tail) then None
      else Some(Goto(s, t, Adder(Move(n))).(mem := s.mem[s.tail.id := s.mem[s.tail.id].(next := To(n))],
                                            appended := s.appended + [n]))
    case Move(n) =>
      if !Readable(s, s.tail) then None
      else Some(Goto(s, t, Adder(Exit(n))).(tail := s.mem[s.tail.id].next))
    case Exit(n) => Some(Unlock(s, t, Adder(Notify(n))))
    case Notify(n) => Some(Goto(s, t, Adder(if s.callback then Tell(n) else Finished(n, false))))
    case Tell(n) =>
      if !Readable(s, To(n)) then None
      else Some(Goto(s, t, Adder(Finished(n, true))).(reports := s.reports + multiset{n}))
    case Finished(_, _) => None
    case Gone => None
  }

  // `found` says whether there is a callback to call.
  function RemoveStep(s: State, t: nat, pc: Remove, found: bool): Option<State>
    requires t < |s.threads|
  {
    match pc
    case Compare(a, cur, passed) =>
      if cur == Null then Some(Goto(s, t, Remover(NoMatch)))
      else if !Readable(s, cur) then None
      else Some(Goto(s, t, Remover(if s.mem[cur.id].addr == a then Matched(a, cur.id, passed) else Follow(a, cur.id, passed))))
    case Follow(a, cur, passed) =>
      if !Readable(s, To(cur)) then None
      else Some(Goto(s, t, Remover(Compare(a, s.mem[cur].next, passed + [cur]))))
    case Matched(_, n, _) =>
      if !Readable(s, To(n)) then None
      else Some(Goto(s, t, Remover(Consult(n))).(mem := s.mem[n := s.mem[n].(available := false)]))
    case Consult(n) => Some(Goto(s, t, Remover(if found then Hand(n) else Marked(n))))
    case Hand(n) => if !Readable(s, To(n)) then None else Some(Goto(s, t, Remover(Marked(n))))
    case Marked(_) => None
    case NoMatch => None
  }

  function NewScan(s: State): Scan { Scan(To(0), Guard, [], |s.appended|) }

  // The phases in which a pass looks into its node.
  predicate AtNode(c: Scan) { c.phase.Test? || c.phase.Deliver? || c.phase.Advance? }

  predicate CanScan(s: State, c: Scan) { if AtNode(c) then Readable(s, c.cur) else c.phase == Guard }

  function ScanStep(s: State, c: Scan): Scan
    requires CanScan(s, c)
  {
    match c.phase
    case Guard => c.(phase := if c.cur == Null || s.tail == Null then Over else Test)
    case Test =>
      if s.mem[c.cur.id].available then c.(phase := Deliver)
      else c.(seen := c.seen + [Seen(c.cur.id, false)], phase := Advance)
    case Deliver => c.(seen := c.seen + [Seen(c.cur.id, true)], phase := Advance)
    case Advance => c.(cur := s.mem[c.cur.id].next, phase := Guard)
  }

  // The nodes an iteration called back on, in order.
  function Called(seen: seq<Seen>): seq<nat> {
    if seen == [] then []
    else Called(seen[..|seen|-1]) + if seen[|seen|-1].available then [seen[|seen|-1].node] else []
  }

  function RegisterStep(s: State, t: nat, pc: Register): Option<State>
    requires t < |s.threads|
  {
    match pc
    case Announce => Some(Goto(s, t, Registrar(Await)).(callback := true))
    case Await => Lock(s, t, Registrar(Scanning(NewScan(s))))
    case Scanning(c) =>
      if c.phase == Over then Some(Unlock(s, t, Registrar(Registered(c))))
      else if !CanScan(s, c) then None
      else
        var told := if c.phase == Deliver then multiset{c.cur.id} else multiset{};
        Some(Goto(s, t, Registrar(Scanning(ScanStep(s, c)))).(reports := s.reports + told))
    case Registered(_) => None
  }

  function StartStep(s: State, t: nat, pc: Start): Option<State>
    requires t < |s.threads|
  {
    match pc
    case Open => Lock(s, t, Starter(Opening))
    case Opening => Some(Goto(s, t, Starter(if s.tail == Null then SetTail else Opened)))
    case SetTail => Some(Goto(s, t, Starter(ClearRoot)).(tail := To(0)))
    case ClearRoot =>
      if !Readable(s, To(0)) then None
      else Some(Goto(s, t, Starter(Opened)).(mem := s.mem[0 := s.mem[0].(next := Null)]))
    case Opened => Some(Unlock(s, t, Starter(Started)))
    case Started => None
  }

  function StopStep(s: State, t: nat, pc: Stop): Option<State>
    requires t < |s.threads|
  {
    match pc
    case Close => Lock(s, t, Stopper(Closing))
    case Closing => Some(Goto(s, t, Stopper(if s.tail == Null then Closed else Cut)))
    case Cut =>
      if !Readable(s, To(0)) then None
      else Some(Goto(s, t, Stopper(ClearTail(s.mem[0].next))).(
                  mem := s.mem[0 := s.mem[0].(next := Null)], doomed := s.appended, appended := []))
    case ClearTail(p) => Some(Goto(s, t, Stopper(Free(p))).(tail := Null))
    case Free(p) =>
      if p == Null then Some(Goto(s, t, Stopper(Closed)))
      else if !Readable(s, p) then None
      else Some(Goto(s, t, Stopper(Free(s.mem[p.id].next))).(
                  freed := s.freed + multiset{p.id},
                  doomed := if s.doomed == [] then [] else s.doomed[1..]))
    case Closed => Some(Unlock(s, t, Stopper(Stopped)))
    case Stopped => None
  }

  // The step of thread t.  None: it waits for the mutex, has finished, or would
  // read what is not there.
  function After(s: State, t: nat, found: bool): Option<State>
    requires t < |s.threads|
  {
    match s.threads[t]
    case Adder(pc) => AddStep(s, t, pc, found)
    case Remover(pc) => RemoveStep(s, t, pc, found)
    case Idle => Some(Goto(s, t, Iterator(NewScan(s))))
    case Iterator(c) => if CanScan(s, c) then Some(Goto(s, t, Iterator(ScanStep(s, c)))) else None
    case Registrar(pc) => RegisterStep(s, t, pc)
    case Starter(pc) => StartStep(s, t, pc)
    case Stopper(pc) => StopStep(s, t, pc)
  }

  ghost predicate StepOf(s: State, s': State, t: nat, found: bool) {
    t < |s.threads| && After(s, t, found) == Some(s')
  }

  ghost predicate Step(s: State, s': State) {
    exists t: nat, found: bool :: StepOf(s, s', t, found)
  }

  // All interleavings: a run is any sequence of states linked by steps.
  ghost predicate Run(r: seq<State>) {
    |r| > 0 && Init(r[0]) && forall i :: 0 < i < |r| ==> Step(r[i - 1], r[i])
  }

  // The state a run has reached.
  function Now(r: seq<State>): State
    requires |r| > 0
  {
    r[|r| - 1]
  }
}
