/**
  Lock-free iteration and removal against any number of concurrent appends, while
  no thread stops the cache; for a single pass or thread it is enough that no stop
  cuts the list from some point on.
 */
module ImageScan {
  import opened Sums
  import opened Wrappers
  import opened ImageProtocol
  import opened ImageOwnership
  import opened ImageReaders

  ghost predicate NoStop(s: State) {
    forall t :: 0 <= t < |s.threads| ==> !s.threads[t].Stopper?
  }

  function Visited(seen: seq<Seen>): (r: seq<nat>)
    ensures |r| == |seen|
  {
    seq(|seen|, i requires 0 <= i < |seen| => seen[i].node)
  }

  // The list only grows and availability is only ever lost.
  ghost predicate Grows(s: State, s': State) {
    && s.appended <= s'.appended && |s.mem| <= |s'.mem|
    && forall n :: 0 <= n < |s.mem| ==>
         s'.mem[n].addr == s.mem[n].addr && (s'.mem[n].available ==> s.mem[n].available)
  }

  // An iteration has seen a prefix of the list, in order, and will not stop
  // before the nodes that were there when it began.
  ghost predicate OnTrack(s: State, c: Scan) {
    var ids, k := List(s), |c.seen|;
    && c.floor <= |s.appended| && k <= |ids|
    && Visited(c.seen) == ids[..k]
    && (forall i :: 0 <= i < k ==> c.seen[i].node < |s.mem| && (s.mem[c.seen[i].node].available ==> c.seen[i].available))
    && match c.phase
       case Guard => if c.cur == Null then c.floor < k else k < |ids| && c.cur == To(ids[k])
       case Test => k < |ids| && c.cur == To(ids[k])
       case Deliver => k < |ids| && c.cur == To(ids[k])
       case Advance => k > 0 && c.cur == To(ids[k - 1])
       case Over => c.floor < k || c.floor == 0
  }

  // A removal has passed a prefix of the list without finding its address.
  ghost predicate Searching(s: State, a: nat, passed: seq<nat>) {
    && |passed| <= |List(s)| && passed == List(s)[..|passed|]
    && forall i :: 0 <= i < |passed| ==> passed[i] < |s.mem| && s.mem[passed[i]].addr != a
  }

  ghost predicate Tracks(s: State, th: Thread) {
    match th
    case Iterator(c) => OnTrack(s, c)
    case Registrar(r) =>
      (r.Scanning? || r.Registered? ==> OnTrack(s, r.scan)) && (r.Registered? ==> r.scan.phase == Over)
    case Remover(r) =>
      (match r
       case Compare(a, cur, passed) =>
         Searching(s, a, passed) && (cur != Null ==> |passed| < |List(s)| && cur == To(List(s)[|passed|]))
       case Follow(a, cur, passed) =>
         Searching(s, a, passed) && |passed| < |List(s)| && cur == List(s)[|passed|] &&
         cur < |s.mem| && s.mem[cur].addr != a
       case Matched(a, at, passed) =>
         Searching(s, a, passed) && |passed| < |List(s)| && at == List(s)[|passed|] &&
         at < |s.mem| && s.mem[at].addr == a
       case _ => true)
    case _ => true
  }

  ghost predicate AllTrack(s: State) {
    forall t :: 0 <= t < |s.threads| ==> Tracks(s, s.threads[t])
  }

  // ----- growth

  lemma StepGrows(s: State, s': State, t: nat, found: bool)
    requires t < |s.threads| && StepOf(s, s', t, found) && NoStop(s)
    ensures Grows(s, s') && NoStop(s') && |s'.threads| == |s.threads| && s'.threads == s.threads[t := s'.threads[t]]
  {
    hide AddStep, RemoveStep, RegisterStep, StartStep, StopStep;
    match s.threads[t]
    case Adder(pc) => AddGrows(s, t, pc, found);
    case Remover(pc) => RemoveGrows(s, t, pc, found);
    case Idle =>
    case Iterator(c) =>
    case Registrar(pc) => RegisterGrows(s, t, pc);
    case Starter(pc) => StartGrows(s, t, pc);
  }

  // A stop's step leaves the nodes as they are, so that the list grows unless it
  // is cut off.
  lemma UncutGrows(s: State, s': State, t: nat, found: bool)
    requires StepOf(s, s', t, found) && s.appended <= s'.appended
    ensures Grows(s, s')
  {
    hide AddStep, RemoveStep, RegisterStep, StartStep, StopStep;
    match s.threads[t]
    case Adder(pc) => AddGrows(s, t, pc, found);
    case Remover(pc) => RemoveGrows(s, t, pc, found);
    case Idle =>
    case Iterator(c) =>
    case Registrar(pc) => RegisterGrows(s, t, pc);
    case Starter(pc) => StartGrows(s, t, pc);
    case Stopper(pc) => StopKeepsNodes(s, t, pc);
  }

  lemma StopKeepsNodes(s: State, t: nat, pc: Stop)
    requires t < |s.threads| && StopStep(s, t, pc).Some?
    ensures var s' := StopStep(s, t, pc).value;
            && |s'.mem| == |s.mem|
            && forall n :: 0 <= n < |s.mem| ==>
                 s'.mem[n].addr == s.mem[n].addr && s'.mem[n].available == s.mem[n].available
  {}

  lemma RemoveGrows(s: State, t: nat, pc: Remove, found: bool)
    requires t < |s.threads| && s.threads[t] == Remover(pc) && RemoveStep(s, t, pc, found).Some?
    ensures var s' := RemoveStep(s, t, pc, found).value;
            Grows(s, s') && s'.threads == s.threads[t := s'.threads[t]] && s'.threads[t].Remover?
  {}

  lemma RegisterGrows(s: State, t: nat, pc: Register)
    requires t < |s.threads| && s.threads[t] == Registrar(pc) && RegisterStep(s, t, pc).Some?
    ensures var s' := RegisterStep(s, t, pc).value;
            Grows(s, s') && s'.threads == s.threads[t := s'.threads[t]] && s'.threads[t].Registrar?
  {}

  lemma StartGrows(s: State, t: nat, pc: Start)
    requires t < |s.threads| && s.threads[t] == Starter(pc) && StartStep(s, t, pc).Some?
    ensures var s' := StartStep(s, t, pc).value;
            Grows(s, s') && s'.threads == s.threads[t := s'.threads[t]] && s'.threads[t].Starter?
  {}

  lemma AddGrows(s: State, t: nat, pc: Add, found: bool)
    requires t < |s.threads| && s.threads[t] == Adder(pc) && AddStep(s, t, pc, found).Some?
    ensures var s' := AddStep(s, t, pc, found).value;
            Grows(s, s') && s'.threads == s.threads[t := s'.threads[t]] && s'.threads[t].Adder?
  {}

  lemma GrowsTracks(s: State, s': State, th: Thread)
    requires Heap(s) && Grows(s, s') && Tracks(s, th)
    ensures Tracks(s', th)
  {
    assert List(s) <= List(s');
    match th
    case Iterator(c) => GrowsOnTrack(s, s', c);
    case Registrar(r) => if r.Scanning? || r.Registered? { GrowsOnTrack(s, s', r.scan); }
    case _ =>
  }

  lemma GrowsOnTrack(s: State, s': State, c: Scan)
    requires Grows(s, s') && OnTrack(s, c)
    ensures OnTrack(s', c)
  {
    assert List(s) <= List(s');
    assert List(s')[..|c.seen|] == List(s)[..|c.seen|];
  }

  // ----- the moving thread

  lemma TailNull(s: State)
    requires Inv(s) && s.tail == Null
    ensures s.appended == []
  {}

  lemma NextOf(s: State, k: nat)
    requires Heap(s) && k < |List(s)|
    ensures List(s)[k] < |s.mem|
    ensures s.mem[List(s)[k]].next == if k + 1 < |List(s)| then To(List(s)[k + 1]) else Null
  {}

  lemma ScanStaysOnTrack(s: State, c: Scan)
    requires OnTrack(s, c) && CanScan(s, c) && Inv(s)
    ensures OnTrack(s, ScanStep(s, c))
  {
    hide Inv;
    var c' := ScanStep(s, c);
    match c.phase
    case Guard =>
      if c.cur != Null && s.tail == Null { TailNull(s); }
    case Test =>
      assert c'.phase == Advance ==> Visited(c'.seen) == Visited(c.seen) + [c.cur.id];
    case Deliver =>
      assert Visited(c'.seen) == Visited(c.seen) + [c.cur.id];
    case Advance =>
      HeapNow(s);
      NextOf(s, |c.seen| - 1);
  }

  lemma HeapNow(s: State)
    requires Inv(s)
    ensures Heap(s) && Conserved(s)
  {}

  lemma NewScanOnTrack(s: State)
    ensures OnTrack(s, NewScan(s))
  {}

  lemma MoverTracks(s: State, s': State, t: nat, found: bool)
    requires t < |s.threads| == |s'.threads| && StepOf(s, s', t, found)
    requires Tracks(s, s.threads[t]) && Grows(s, s')
    requires NoStop(s) && Inv(s)
    ensures Tracks(s', s'.threads[t])
  {
    hide Inv, OnTrack, Grows, NoStop, AddStep, StartStep;
    NewScanOnTrack(s);
    match s.threads[t]
    case Adder(pc) => AddGrows(s, t, pc, found);
    case Remover(pc) => HeapNow(s); RemoverTracks(s, s', t, pc, found);
    case Idle => GrowsOnTrack(s, s', NewScan(s));
    case Iterator(c) =>
      ScanStaysOnTrack(s, c);
      GrowsOnTrack(s, s', ScanStep(s, c));
    case Registrar(pc) => RegistrarTracks(s, s', t, pc);
    case Starter(pc) => StarterStays(s, t, pc);
    case Stopper(pc) => assert false by { Stopless(s, t); }
  }

  lemma Stopless(s: State, t: nat)
    requires NoStop(s) && t < |s.threads|
    ensures !s.threads[t].Stopper?
  {}

  lemma StarterStays(s: State, t: nat, pc: Start)
    requires t < |s.threads| && StartStep(s, t, pc).Some?
    ensures StartStep(s, t, pc).value.threads[t].Starter?
  {}

  lemma RegistrarTracks(s: State, s': State, t: nat, pc: Register)
    requires t < |s.threads| && s.threads[t] == Registrar(pc)
    requires Tracks(s, s.threads[t]) && RegisterStep(s, t, pc) == Some(s') && Grows(s, s')
    requires NoStop(s) && Inv(s)
    ensures Tracks(s', s'.threads[t])
  {
    hide Inv, OnTrack, Grows, NoStop;
    NewScanOnTrack(s);
    match pc
    case Announce =>
    case Await => GrowsOnTrack(s, s', NewScan(s));
    case Scanning(c) =>
      if c.phase != Over {
        ScanStaysOnTrack(s, c);
        GrowsOnTrack(s, s', ScanStep(s, c));
      } else {
        GrowsOnTrack(s, s', c);
      }
    case Registered(_) =>
  }

  lemma RemoverTracks(s: State, s': State, t: nat, pc: Remove, found: bool)
    requires t < |s.threads| && s.threads[t] == Remover(pc)
    requires Tracks(s, s.threads[t]) && RemoveStep(s, t, pc, found) == Some(s') && Grows(s, s')
    requires Heap(s)
    ensures Tracks(s', s'.threads[t])
  {
    hide Grows, Heap;
    if pc.Compare? && pc.cur != Null {
      GrowsTracks(s, s', s.threads[t]);
    } else if pc.Follow? {
      NextOf(s, |pc.passed|);
      SearchOn(s, s', pc.addr, pc.passed, pc.at);
    }
  }

  lemma SearchOn(s: State, s': State, a: nat, passed: seq<nat>, n: nat)
    requires Searching(s, a, passed) && Grows(s, s') && |passed| < |List(s)| && n == List(s)[|passed|]
    requires n < |s.mem| && s.mem[n].addr != a
    ensures Searching(s', a, passed + [n]) && List(s) <= List(s')
  {
    assert List(s) <= List(s');
  }

  lemma StepTracks(s: State, s': State, t: nat, found: bool)
    requires StepOf(s, s', t, found) && AllTrack(s) && NoStop(s) && Inv(s)
    ensures AllTrack(s')
  {
    hide Inv, NoStop, After, Tracks, Grows;
    StepGrows(s, s', t, found);
    HeapNow(s);
    MoverTracks(s, s', t, found);
    forall u | 0 <= u < |s'.threads| && u != t ensures Tracks(s', s'.threads[u]) {
      GrowsTracks(s, s', s.threads[u]);
    }
  }

  lemma {:induction false} RunTracks(r: seq<State>)
    requires Run(r) && NoStop(r[0])
    ensures forall i :: 0 <= i < |r| ==> NoStop(r[i]) && AllTrack(r[i])
    ensures forall i, j :: 0 <= i <= j < |r| ==> Grows(r[i], r[j])
  {
    hide Inv, NoStop, AllTrack, Init, After;
    RunInv(r);
    if |r| == 1 {
      InitTracks(r[0]);
    } else {
      var p := r[..|r| - 1];
      RunTracks(p);
      var s, s' := r[|r| - 2], r[|r| - 1];
      assert p[|r| - 2] == s && Step(s, s');
      var t: nat, found: bool :| StepOf(s, s', t, found);
      StepGrows(s, s', t, found);
      StepTracks(s, s', t, found);
      forall i | 0 <= i < |r| ensures Grows(r[i], s') {
        if i < |p| { assert Grows(p[i], p[|p| - 1]); }
      }
    }
  }

  lemma InitTracks(s: State)
    requires Init(s)
    ensures AllTrack(s)
  {}

  // ----- main result on iteration

  // An iteration that begins no earlier than state j covers what was listed then.
  ghost predicate Covers(s: State, j: State, th: Thread) {
    (th == Idle && j.appended <= s.appended) || (th.Iterator? && |j.appended| <= th.scan.floor)
  }

  lemma CoversStep(s: State, s': State, j: State, t: nat, u: nat, found: bool)
    requires u < |s.threads| && StepOf(s, s', u, found) && |s'.threads| == |s.threads|
    requires t < |s.threads| && s'.threads == s.threads[u := s'.threads[u]]
    requires Covers(s, j, s.threads[t]) && Grows(s, s')
    ensures Covers(s', j, s'.threads[t])
  {
    hide AddStep, RemoveStep, RegisterStep, StartStep, StopStep;
  }

  // From state j on no stop cuts a node off the list.
  ghost predicate Uncut(r: seq<State>, j: nat) {
    forall m :: j <= m < |r| - 1 ==> r[m].appended <= r[m + 1].appended
  }

  lemma UncutPrefix(r: seq<State>, j: nat)
    requires Uncut(r, j) && j < |r| - 1
    ensures Uncut(r[..|r| - 1], j) && r[|r| - 2].appended <= Now(r).appended
  {
    var p, m := r[..|r| - 1], |r| - 2;
    assert r[m].appended <= r[m + 1].appended;
    forall i | j <= i < |p| - 1 ensures p[i].appended <= p[i + 1].appended {
      assert r[i].appended <= r[i + 1].appended;
    }
  }

  ghost predicate Passing(s: State, j: State, th: Thread) {
    Covers(s, j, th) && (th.Iterator? ==> OnTrack(s, th.scan))
  }

  lemma PassingStep(s: State, s': State, j: State, t: nat, u: nat, found: bool)
    requires u < |s.threads| && StepOf(s, s', u, found) && |s'.threads| == |s.threads|
    requires t < |s.threads| && s'.threads == s.threads[u := s'.threads[u]]
    requires Passing(s, j, s.threads[t]) && Grows(s, s')
    requires Inv(s)
    ensures Passing(s', j, s'.threads[t])
  {
    hide Inv, OnTrack, Grows, AddStep, RemoveStep, RegisterStep, StartStep, StopStep, ScanStep, CanScan;
    if t == u && s.threads[t] == Idle {
      NewScanOnTrack(s);
      GrowsOnTrack(s, s', NewScan(s));
    } else if t == u && s.threads[t].Iterator? {
      ScanStaysOnTrack(s, s.threads[t].scan);
      GrowsOnTrack(s, s', ScanStep(s, s.threads[t].scan));
    } else if s.threads[t].Iterator? {
      GrowsOnTrack(s, s', s.threads[t].scan);
    }
    CoversStep(s, s', j, t, u, found);
  }

  // A pass that begins no earlier than state j stays on track while the list is
  // not cut.
  lemma {:induction false} RunPasses(r: seq<State>, j: nat, t: nat)
    requires Run(r) && j < |r| && Uncut(r, j) && t < |r[j].threads| && r[j].threads[t] == Idle
    ensures t < |Now(r).threads| && Passing(Now(r), r[j], Now(r).threads[t]) && Grows(r[j], Now(r))
    decreases |r|
  {
    hide Inv, After, Passing, Grows, Init, Uncut;
    if j == |r| - 1 {
      PassesSelf(r[j], t);
    } else {
      var p := r[..|r| - 1];
      UncutPrefix(r, j);
      RunInv(p);
      RunPasses(p, j, t);
      var s, s' := r[|r| - 2], r[|r| - 1];
      assert p[|r| - 2] == s && Step(s, s') && Now(p) == s;
      var u: nat, found: bool :| StepOf(s, s', u, found);
      UncutGrows(s, s', u, found);
      StepFrame(s, s', u, found);
      PassingStep(s, s', r[j], t, u, found);
      GrowsOn(r[j], s, s');
    }
  }

  lemma PassesSelf(s: State, t: nat)
    requires t < |s.threads| && s.threads[t] == Idle
    ensures Passing(s, s, s.threads[t]) && Grows(s, s)
  {}

  lemma GrowsOn(s: State, s': State, s'': State)
    requires Grows(s, s') && Grows(s', s'')
    ensures Grows(s, s'')
  {}

  /** Lock-free iteration is sound under concurrent appends and removals, and under
      starts and stops as long as no stop cuts the list while it runs: it tests a
      prefix of the list, in order, no node twice; it reaches every node listed when
      it began; and it calls back on each of those that is still available. */
  lemma IterationIsSound(r: seq<State>, j: nat, t: nat)
    requires Run(r) && j < |r| && Uncut(r, j) && t < |r[j].threads| && r[j].threads[t] == Idle
    ensures var s := Now(r);
            t < |s.threads| && (s.threads[t].Iterator? && s.threads[t].scan.phase == Over ==>
            var c := s.threads[t].scan;
            && Visited(c.seen) <= List(s) && Distinct(Visited(c.seen))
            && (forall n :: n in r[j].appended ==>
                  n in Visited(c.seen) && n < |s.mem| && (s.mem[n].available ==> n in Called(c.seen)))
            && (forall n :: n in Called(c.seen) <==> Seen(n, true) in c.seen))
  {
    RunInv(r);
    RunPasses(r, j, t);
    hide Run, Inv, Init, Uncut;
    var s := Now(r);
    if s.threads[t].Iterator? && s.threads[t].scan.phase == Over {
      ScanResult(s, s.threads[t].scan, |r[j].appended|);
      assert r[j].appended == s.appended[..|r[j].appended|];
    }
  }

  lemma ScanResult(s: State, c: Scan, k: nat)
    requires OnTrack(s, c) && c.phase == Over && k <= c.floor
    requires Inv(s)
    ensures Visited(c.seen) <= List(s) && Distinct(Visited(c.seen)) && k <= |s.appended|
    ensures forall n :: n in s.appended[..k] ==>
              n in Visited(c.seen) && n < |s.mem| && (s.mem[n].available ==> n in Called(c.seen))
    ensures forall n :: n in Called(c.seen) <==> Seen(n, true) in c.seen
  {
    hide Inv, Called;
    HeapNow(s);
    ListDistinct(s);
    forall n ensures n in Called(c.seen) <==> Seen(n, true) in c.seen { CalledIff(c.seen, n); }
    forall n | n in s.appended[..k]
      ensures n in Visited(c.seen) && n < |s.mem| && (s.mem[n].available ==> n in Called(c.seen))
    {
      Reached(s, c, k, n);
    }
  }

  lemma Reached(s: State, c: Scan, k: nat, n: nat)
    requires OnTrack(s, c) && c.phase == Over && k <= c.floor && n in s.appended[..k]
    ensures n in Visited(c.seen) && n < |s.mem| && (s.mem[n].available ==> n in Called(c.seen))
  {
    hide Called;
    var i :| 0 <= i < k && s.appended[..k][i] == n;
    assert List(s)[i + 1] == n;
    assert Visited(c.seen)[i + 1] == List(s)[..|c.seen|][i + 1];
    assert c.seen[i + 1].node == n;
    CalledIff(c.seen, n);
    if s.mem[n].available { assert c.seen[i + 1] == Seen(n, true); }
  }

  lemma {:induction false} CalledIff(seen: seq<Seen>, n: nat)
    ensures n in Called(seen) <==> Seen(n, true) in seen
  {
    if seen != [] { CalledIff(seen[..|seen| - 1], n); }
  }

  // ----- what a pass calls back on

  // The pass over the list that a thread is making or has made.
  function PassOf(th: Thread): Option<Scan> {
    match th
    case Iterator(c) => Some(c)
    case Registrar(r) => if r.Scanning? || r.Registered? then Some(r.scan) else None
    case _ => None
  }

  // What it has found so far.
  function Found(th: Thread): seq<Seen> { if PassOf(th).Some? then PassOf(th).value.seen else [] }

  predicate At(th: Thread, phase: Phase, n: nat) {
    PassOf(th).Some? && PassOf(th).value.phase == phase && PassOf(th).value.cur == To(n)
  }

  // In this step the pass of thread t tests node n, which is available or not at
  // that moment.
  ghost predicate Tests(s: State, s': State, t: nat, n: nat, available: bool) {
    && StepOf(s, s', t, false) && t < |s'.threads|
    && At(s.threads[t], Test, n) && n < |s.mem| && s.mem[n].available == available
    && (if available then At(s'.threads[t], Deliver, n) && Found(s'.threads[t]) == Found(s.threads[t])
        else Found(s'.threads[t]) == Found(s.threads[t]) + [Seen(n, false)])
  }

  // In this step it calls back on n; for a registration that is the report.
  ghost predicate Delivers(s: State, s': State, t: nat, n: nat) {
    && StepOf(s, s', t, false) && t < |s'.threads|
    && At(s.threads[t], Deliver, n) && Found(s'.threads[t]) == Found(s.threads[t]) + [Seen(n, true)]
    && s'.reports == s.reports + if s.threads[t].Registrar? then multiset{n} else multiset{}
  }

  // How a step of thread t moves its pass.
  ghost predicate PassMoves(s: State, s': State, t: nat)
    requires t < |s.threads| == |s'.threads|
  {
    var p, p' := PassOf(s.threads[t]), PassOf(s'.threads[t]);
    || p' == p
    || (p == None && p' == Some(NewScan(s)))
    || (p.Some? && CanScan(s, p.value) && p' == Some(ScanStep(s, p.value)) && StepOf(s, s', t, false) &&
        s'.reports == s.reports + if s.threads[t].Registrar? && p.value.phase == Deliver
                                  then multiset{p.value.cur.id} else multiset{})
  }

  lemma StepMovesPass(s: State, s': State, t: nat, found: bool)
    requires StepOf(s, s', t, found) && t < |s'.threads| == |s.threads|
    ensures PassMoves(s, s', t)
  {
    hide AddStep, RemoveStep, RegisterStep, StartStep, StopStep, ScanStep;
    match s.threads[t]
    case Adder(pc) => AddGoes(s, t, pc, found);
    case Remover(pc) => RemoverMoves(s, t, pc, found);
    case Idle =>
    case Iterator(c) => assert s.reports + multiset{} == s.reports;
    case Registrar(pc) => RegistrarMovesPass(s, t, pc);
    case Starter(pc) => StarterHoldsNone(s, t, pc);
    case Stopper(pc) => StopperHoldsNone(s, t, pc);
  }

  lemma RegistrarMovesPass(s: State, t: nat, pc: Register)
    requires t < |s.threads| && s.threads[t] == Registrar(pc) && RegisterStep(s, t, pc).Some?
    ensures |RegisterStep(s, t, pc).value.threads| == |s.threads| && PassMoves(s, RegisterStep(s, t, pc).value, t)
  {
    hide ScanStep;
  }

  // A test finds its node unavailable, or puts it up for delivery.
  lemma StepTests(s: State, s': State, u: nat, t: nat, found: bool, n: nat, available: bool)
    requires StepOf(s, s', u, found) && t < |s.threads| == |s'.threads|
    requires s'.threads == s.threads[u := s'.threads[u]]
    ensures var th, th' := s.threads[t], s'.threads[t];
            Seen(n, available) in Found(th') || (available && At(th', Deliver, n)) <==>
            Seen(n, available) in Found(th) || (available && At(th, Deliver, n)) || Tests(s, s', t, n, available)
  {
    if u == t { StepMovesPass(s, s', t, found); }
    hide StepOf;
  }

  lemma StepDelivers(s: State, s': State, u: nat, t: nat, found: bool, n: nat)
    requires StepOf(s, s', u, found) && t < |s.threads| == |s'.threads|
    requires s'.threads == s.threads[u := s'.threads[u]]
    ensures Seen(n, true) in Found(s'.threads[t]) <==>
            Seen(n, true) in Found(s.threads[t]) || Delivers(s, s', t, n)
  {
    if u == t { StepMovesPass(s, s', t, found); }
    hide StepOf;
  }

  ghost predicate Tested(r: seq<State>, t: nat, n: nat, available: bool) {
    exists m :: 0 <= m < |r| - 1 && Tests(r[m], r[m + 1], t, n, available)
  }

  ghost predicate Delivered(r: seq<State>, t: nat, n: nat) {
    exists m :: 0 <= m < |r| - 1 && Delivers(r[m], r[m + 1], t, n)
  }

  /** What a pass has found is what was so when one of its steps tested the node: the
      node was unavailable then, or it was available and has been called back on, or
      is about to be. */
  lemma {:induction false} FoundWhenTested(r: seq<State>, t: nat, n: nat, available: bool)
    requires Run(r) && t < |Now(r).threads|
    ensures var th := Now(r).threads[t];
            Seen(n, available) in Found(th) || (available && At(th, Deliver, n)) <==> Tested(r, t, n, available)
    decreases |r|
  {
    hide Init, After, Tests, Found, At, Tested;
    if |r| == 1 {
      NothingFoundYet(r, t, n);
    } else {
      var p := r[..|r| - 1];
      var s, s' := r[|r| - 2], r[|r| - 1];
      assert p[|r| - 2] == s && Step(s, s') && Now(p) == s;
      var u: nat, found: bool :| StepOf(s, s', u, found);
      StepFrame(s, s', u, found);
      FoundWhenTested(p, t, n, available);
      StepTests(s, s', u, t, found, n, available);
      TestedStep(r, t, n, available);
    }
  }

  lemma {:induction false} FoundWhenDelivered(r: seq<State>, t: nat, n: nat)
    requires Run(r) && t < |Now(r).threads|
    ensures Seen(n, true) in Found(Now(r).threads[t]) <==> Delivered(r, t, n)
    decreases |r|
  {
    hide Init, After, Delivers, Found, Delivered;
    if |r| == 1 {
      NothingFoundYet(r, t, n);
    } else {
      var p := r[..|r| - 1];
      var s, s' := r[|r| - 2], r[|r| - 1];
      assert p[|r| - 2] == s && Step(s, s') && Now(p) == s;
      var u: nat, found: bool :| StepOf(s, s', u, found);
      StepFrame(s, s', u, found);
      FoundWhenDelivered(p, t, n);
      StepDelivers(s, s', u, t, found, n);
      DeliveredStep(r, t, n);
    }
  }

  lemma NothingFoundYet(r: seq<State>, t: nat, n: nat)
    requires |r| == 1 && Init(r[0]) && t < |r[0].threads|
    ensures Found(r[0].threads[t]) == [] && !At(r[0].threads[t], Deliver, n)
    ensures !Tested(r, t, n, true) && !Tested(r, t, n, false) && !Delivered(r, t, n)
  {}

  lemma TestedStep(r: seq<State>, t: nat, n: nat, available: bool)
    requires |r| > 1
    ensures Tested(r, t, n, available) <==>
            Tested(r[..|r| - 1], t, n, available) || Tests(r[|r| - 2], r[|r| - 1], t, n, available)
  {
    hide Tests;
    var p, k := r[..|r| - 1], |r| - 2;
    if m :| 0 <= m < |p| - 1 && Tests(p[m], p[m + 1], t, n, available) {
      InPrefix(r, m);
      InPrefix(r, m + 1);
      assert Tests(r[m], r[m + 1], t, n, available);
    }
    if m :| 0 <= m < |r| - 1 && Tests(r[m], r[m + 1], t, n, available) {
      if m < k {
        InPrefix(r, m);
        InPrefix(r, m + 1);
        assert Tests(p[m], p[m + 1], t, n, available);
      }
    }
    assert Tests(r[k], r[k + 1], t, n, available) ==> Tested(r, t, n, available);
  }

  lemma DeliveredStep(r: seq<State>, t: nat, n: nat)
    requires |r| > 1
    ensures Delivered(r, t, n) <==> Delivered(r[..|r| - 1], t, n) || Delivers(r[|r| - 2], r[|r| - 1], t, n)
  {
    hide Delivers;
    var p, k := r[..|r| - 1], |r| - 2;
    if m :| 0 <= m < |p| - 1 && Delivers(p[m], p[m + 1], t, n) {
      InPrefix(r, m);
      InPrefix(r, m + 1);
      assert Delivers(r[m], r[m + 1], t, n);
    }
    if m :| 0 <= m < |r| - 1 && Delivers(r[m], r[m + 1], t, n) {
      if m < k {
        InPrefix(r, m);
        InPrefix(r, m + 1);
        assert Delivers(p[m], p[m + 1], t, n);
      }
    }
    assert Delivers(r[k], r[k + 1], t, n) ==> Delivered(r, t, n);
  }

  /** A pass calls back on exactly the nodes in its record, each in a step of its own;
      and a step of it had tested such a node and found it available at that moment.
      This holds in all interleavings, stops included. */
  lemma CallsOnlyOnAvailable(r: seq<State>, t: nat, n: nat)
    requires Run(r) && t < |Now(r).threads|
    ensures n in Called(Found(Now(r).threads[t])) <==>
            exists m :: 0 <= m < |r| - 1 && Delivers(r[m], r[m + 1], t, n)
    ensures n in Called(Found(Now(r).threads[t])) ==>
            exists m :: 0 <= m < |r| - 1 && Tests(r[m], r[m + 1], t, n, true)
  {
    FoundWhenTested(r, t, n, true);
    FoundWhenDelivered(r, t, n);
    CalledIff(Found(Now(r).threads[t]), n);
    hide Run, Called, Found, Tests, Delivers;
  }

  // ----- who is left behind

  // Thread t stands nowhere or at a listed node.
  ghost predicate OnList(s: State, t: nat)
    requires t < |s.threads|
  {
    InHand(s.threads[t]).To? ==> InHand(s.threads[t]).id in List(s)
  }

  lemma OnListStep(s: State, s': State, t: nat, u: nat, found: bool)
    requires StepOf(s, s', u, found) && s.appended <= s'.appended
    requires t < |s.threads| == |s'.threads| && s'.threads == s.threads[u := s'.threads[u]]
    requires OnList(s, t)
    requires Inv(s)
    ensures OnList(s', t)
  {
    hide Inv, StepOf, Heap;
    assert List(s) <= List(s');
    if t == u && InHand(s'.threads[t]).To? {
      ReaderMoves(s, s', t, found);
      var p, p' := InHand(s.threads[t]), InHand(s'.threads[t]);
      if p'.id !in List(s') && p' != p {
        HeapNow(s);
        NextIsPlaced(s, p.id, p'.id);
      }
    }
  }

  lemma {:induction false} StaysOnList(r: seq<State>, j: nat, t: nat)
    requires Run(r) && j < |r| && Uncut(r, j) && t < |r[j].threads| && OnList(r[j], t)
    ensures t < |Now(r).threads| && OnList(Now(r), t)
    decreases |r|
  {
    hide Inv, After, OnList, Init, Uncut;
    if j < |r| - 1 {
      var p := r[..|r| - 1];
      UncutPrefix(r, j);
      RunInv(p);
      StaysOnList(p, j, t);
      var s, s' := r[|r| - 2], r[|r| - 1];
      assert p[|r| - 2] == s && Step(s, s') && Now(p) == s;
      var u: nat, found: bool :| StepOf(s, s', u, found);
      StepFrame(s, s', u, found);
      OnListStep(s, s', t, u, found);
    }
  }

  /** Nobody is left behind by a stop that is over, or that has nothing to cut off: a
      thread that at some point stands nowhere, or at a listed node, has a next step
      or has finished or waits for the mutex, as long as from then on no stop cuts
      the list. */
  lemma NoReaderIsLost(r: seq<State>, j: nat, t: nat, found: bool)
    requires Run(r) && j < |r| && Uncut(r, j) && t < |r[j].threads| && OnList(r[j], t)
    ensures t < |Now(r).threads| && OnList(Now(r), t)
    ensures After(Now(r), t, found) == None <==> Waiting(Now(r), Now(r).threads[t])
  {
    hide Uncut, Init, Step, After, Waiting, Reclaimed, OnList, LooksInto;
    StaysOnList(r, j, t);
    NoThreadIsStuck(r, t, found);
    OnListIsLive(r, t);
  }

  lemma OnListIsLive(r: seq<State>, t: nat)
    requires Run(r) && t < |Now(r).threads| && OnList(Now(r), t)
    ensures LooksInto(Now(r).threads[t]).To? ==> !Reclaimed(r, LooksInto(Now(r).threads[t]).id)
  {
    hide Init, Step, Inv, Reclaimed, Conserved;
    RunInv(r);
    var n := LooksInto(Now(r).threads[t]);
    if n.To? && Reclaimed(r, n.id) {
      ReclaimedIsFreed(r, n.id);
      HeapNow(Now(r));
      ListedIsLive(Now(r), n.id);
    }
  }

  lemma NoStopIsUncut(r: seq<State>)
    requires Run(r) && NoStop(r[0])
    ensures Uncut(r, 0)
  {
    hide Inv, NoStop, AllTrack, Init, After, Step;
    RunTracks(r);
    forall m | 0 <= m < |r| - 1 ensures r[m].appended <= r[m + 1].appended { assert Grows(r[m], r[m + 1]); }
  }

  /** In particular nobody is ever left behind when no thread stops the cache. */
  lemma NobodyIsLostWithoutStop(r: seq<State>, t: nat, found: bool)
    requires Run(r) && NoStop(r[0]) && t < |r[0].threads|
    ensures t < |Now(r).threads| && OnList(Now(r), t)
    ensures After(Now(r), t, found) == None <==> Waiting(Now(r), Now(r).threads[t])
  {
    NoStopIsUncut(r);
    BeginsOnList(r[0], t);
    NoReaderIsLost(r, 0, t, found);
  }

  lemma BeginsOnList(s: State, t: nat)
    requires Init(s) && t < |s.threads|
    ensures OnList(s, t)
  {}

  lemma TrackOf(s: State, t: nat)
    requires AllTrack(s) && t < |s.threads|
    ensures Tracks(s, s.threads[t])
  {}
}
