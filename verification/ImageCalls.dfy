/**
  What becomes of each call on the interleaved cache, told from what the call
  itself read on its way: the tail at the check, the image lookup, the tail at the
  recheck and the callback.
 */
module ImageCalls {
  import opened Wrappers
  import opened ImageProtocol
  import opened ImageOwnership
  import opened ImageReaders
  import opened ImageScan
  import opened ImageLinearize
  import H = ImageHistory

  // What an adder has read so far: was the tail set at its check, was the image
  // found, was the tail set at its recheck, was there a callback?
  datatype Answers = Answers(
    checked: Option<bool>, looked: Option<bool>, rechecked: Option<bool>, consulted: Option<bool>)

  const NONE_YET := Answers(None, None, None, None)

  function Read(m: Answers, s: State, th: Thread, found: bool): Answers {
    if !th.Adder? then m
    else match th.add
      case Check(_) => m.(checked := Some(s.tail != Null))
      case Build(_) => m.(looked := Some(found))
      case Recheck(_) => m.(rechecked := Some(s.tail != Null))
      case Notify(_) => m.(consulted := Some(s.callback))
      case _ => m
  }

  // The answers thread t has had in the course of a run.
  ghost function AnswersOf(r: seq<State>, who: seq<(nat, bool)>, t: nat): Answers
    requires Scheduled(r, who) && t < |r[0].threads|
    decreases |who|
  {
    if who == [] then NONE_YET
    else
      var n := |who| - 1;
      assert StepOf(r[n], r[n + 1], who[n].0, who[n].1);
      var m := AnswersOf(r[..n + 1], who[..n], t);
      if who[n].0 == t then Read(m, r[n], r[n].threads[t], who[n].1) else m
  }

  // Did the check find the cache started, and the lookup the image?
  predicate Admitted(m: Answers) { m.checked == Some(true) && m.looked == Some(true) }

  predicate Ended(th: Thread) { th.Adder? && (th.add.Finished? || th.add.Gone?) }

  // ----- where an adder is tells what it has read

  predicate Fits(pc: Add, m: Answers) {
    match pc
    case Enter(_) => m == NONE_YET
    case Check(_) => m == NONE_YET
    case Leave(_) => m == Answers(Some(true), None, None, None)
    case Build(_) => m == Answers(Some(true), None, None, None)
    case Own(_) => m == Answers(Some(true), Some(true), None, None)
    case Recheck(_) => m == Answers(Some(true), Some(true), None, None)
    case Drop(_) => m == Answers(Some(true), Some(true), Some(false), None)
    case Quit => m == Answers(Some(false), None, None, None) || m == Answers(Some(true), Some(true), Some(false), None)
    case Gone =>
      || m == Answers(Some(false), None, None, None) || m == Answers(Some(true), Some(false), None, None)
      || m == Answers(Some(true), Some(true), Some(false), None)
    case Tell(_) => m == Answers(Some(true), Some(true), Some(true), Some(true))
    case Finished(_, told) => m == Answers(Some(true), Some(true), Some(true), Some(told))
    case _ => m == Answers(Some(true), Some(true), Some(true), None)
  }

  lemma FitsOn(s: State, t: nat, pc: Add, found: bool, m: Answers)
    requires t < |s.threads| && AddStep(s, t, pc, found).Some? && Fits(pc, m)
    ensures var s' := AddStep(s, t, pc, found).value;
            && |s'.threads| == |s.threads| && s'.threads[t].Adder?
            && Fits(s'.threads[t].add, Read(m, s, Adder(pc), found))
  {
    match pc
    case Enter(_) => case Check(_) => case Quit => case Leave(_) => case Build(_) => case Own(_) => case Recheck(_) =>
    case Drop(_) => case Link(_) => case Move(_) => case Exit(_) => case Notify(_) => case Tell(_) =>
  }

  lemma AdderFitsOn(s: State, s': State, t: nat, found: bool, m: Answers)
    requires StepOf(s, s', t, found) && t < |s.threads| && s.threads[t].Adder? && Fits(s.threads[t].add, m)
    ensures |s'.threads| == |s.threads| && s'.threads[t].Adder?
    ensures Fits(s'.threads[t].add, Read(m, s, s.threads[t], found))
  {
    hide AddStep, Fits, Read;
    FitsOn(s, t, s.threads[t].add, found, m);
  }

  lemma {:induction false} RunFits(r: seq<State>, who: seq<(nat, bool)>, t: nat)
    requires Scheduled(r, who) && t < |r[0].threads| && r[0].threads[t].Adder?
    ensures t < |r[|who|].threads| && r[|who|].threads[t].Adder?
    ensures Fits(r[|who|].threads[t].add, AnswersOf(r, who, t))
    decreases |who|
  {
    hide StepOf, Fits, Read;
    if who == [] {
      FitsFirst(r[0], t);
    } else {
      var n := |who| - 1;
      RunFits(r[..n + 1], who[..n], t);
      StepFrame(r[n], r[n + 1], who[n].0, who[n].1);
      if who[n].0 == t { AdderFitsOn(r[n], r[n + 1], t, who[n].1, AnswersOf(r[..n + 1], who[..n], t)); }
    }
  }

  lemma FitsFirst(s: State, t: nat)
    requires Init(s) && t < |s.threads| && s.threads[t].Adder?
    ensures Fits(s.threads[t].add, NONE_YET)
  {}

  /** The fate of every adder, over all interleavings, stops included: it finishes
      exactly when it found the cache started, found the image and found the cache
      still started; a finished one has listed a node with its address, and has
      called back exactly when it found a callback. */
  lemma {:induction false} AdderFate(r: seq<State>, who: seq<(nat, bool)>, t: nat)
    requires Scheduled(r, who) && t < |r[0].threads| && r[0].threads[t].Adder?
    requires t < |r[|who|].threads| && Ended(r[|who|].threads[t])
    ensures var s, m := r[|who|], AnswersOf(r, who, t); var now := s.threads[t].add;
            && (now.Finished? <==> Admitted(m) && m.rechecked == Some(true))
            && (now.Gone? <==> m.checked == Some(false) || m.looked == Some(false) || m.rechecked == Some(false))
            && (now.Finished? ==>
                  && m.consulted == Some(now.told) && now.node < |s.mem|
                  && r[0].threads[t] == Adder(Enter(s.mem[now.node].addr)))
  {
    hide StepOf;
    RunFits(r, who, t);
    RunSameCalls(r, who);
    assert SameCall(r[|who|], r[0].threads[t], r[|who|].threads[t]);
  }

  // ----- without a stop

  // The tail, once set, stays set.
  lemma TailStays(s: State, s': State, t: nat, found: bool)
    requires StepOf(s, s', t, found) && Inv(s) && NoStop(s) && s.tail != Null
    ensures s'.tail != Null
  {
    hide Inv, AddStep, RemoveStep, RegisterStep, StartStep, StopStep;
    match s.threads[t]
    case Adder(pc) => AdderKeepsTail(s, t, found);
    case Remover(pc) => RemoverKeepsTail(s, t, pc, found);
    case Registrar(pc) => RegistrarKeepsTail(s, t, pc);
    case Starter(pc) => StarterKeepsTail(s, t, pc);
    case _ =>
  }

  lemma AdderKeepsTail(s: State, t: nat, found: bool)
    requires t < |s.threads| && s.threads[t].Adder? && AddStep(s, t, s.threads[t].add, found).Some?
    requires Inv(s) && s.tail != Null
    ensures AddStep(s, t, s.threads[t].add, found).value.tail != Null
  {
    hide Inv;
    if s.threads[t].add.Move? {
      MoveFindsNext(s, t);
    }
  }

  // At its move an adder finds the tail one node behind its own.
  lemma MoveFindsNext(s: State, t: nat)
    requires Inv(s) && t < |s.threads| && s.threads[t].Adder? && s.threads[t].add.Move?
    ensures s.tail.To? && s.tail.id < |s.mem| && s.mem[s.tail.id].next != Null
  {
    OwnerNow(s, t);
    HeapNow(s);
    hide Inv, Conserved, Exclusive, TailInv;
    var k := |s.appended| - 1;
    assert s.mem[List(s)[k]].next == To(List(s)[k + 1]);
  }

  lemma RemoverKeepsTail(s: State, t: nat, pc: Remove, found: bool)
    requires t < |s.threads| && RemoveStep(s, t, pc, found).Some?
    ensures RemoveStep(s, t, pc, found).value.tail == s.tail
  {}

  lemma RegistrarKeepsTail(s: State, t: nat, pc: Register)
    requires t < |s.threads| && RegisterStep(s, t, pc).Some?
    ensures RegisterStep(s, t, pc).value.tail == s.tail
  {}

  lemma StarterKeepsTail(s: State, t: nat, pc: Start)
    requires t < |s.threads| && StartStep(s, t, pc).Some? && s.tail != Null
    ensures StartStep(s, t, pc).value.tail != Null
  {}

  // An adder that found the cache started will find it started; one past its
  // link has its node in the list.
  ghost predicate Sure(s: State, th: Thread, m: Answers) {
    && (m.checked == Some(true) ==> s.tail != Null)
    && m.rechecked != Some(false)
    && (th.Adder? && (th.add.Move? || th.add.Exit? || th.add.Notify? || th.add.Tell? || th.add.Finished?) ==>
          th.add.node in s.appended)
  }

  lemma SureOn(s: State, s': State, t: nat, found: bool, m: Answers)
    requires StepOf(s, s', t, found) && t < |s.threads| && s.threads[t].Adder? && Fits(s.threads[t].add, m)
    requires Sure(s, s.threads[t], m) && (s.tail != Null ==> s'.tail != Null) && s.appended <= s'.appended
    ensures |s'.threads| == |s.threads| && Sure(s', s'.threads[t], Read(m, s, s.threads[t], found))
  {
    match s.threads[t].add
    case Enter(_) => case Check(_) => case Quit => case Leave(_) => case Build(_) => case Own(_) => case Recheck(_) =>
    case Drop(_) => case Link(_) => case Move(_) => case Exit(_) => case Notify(_) => case Tell(_) =>
  }

  lemma {:induction false} RunSure(r: seq<State>, who: seq<(nat, bool)>, t: nat)
    requires Scheduled(r, who) && NoStop(r[0]) && t < |r[0].threads| && r[0].threads[t].Adder?
    ensures t < |r[|who|].threads| && Sure(r[|who|], r[|who|].threads[t], AnswersOf(r, who, t))
    decreases |who|
  {
    hide StepOf, Fits, Read, Inv, NoStop, Sure, AllTrack, Grows;
    if who == [] {
      SureFirst(r[0], t);
    } else {
      var n := |who| - 1;
      var p := r[..n + 1];
      RunSure(p, who[..n], t);
      RunFits(p, who[..n], t);
      ScheduledRun(p, who[..n]);
      RunInv(p);
      RunTracks(p);
      assert p[n] == r[n];
      StepIsOfThread(r[n], r[n + 1], who[n].0, who[n].1);
      StepGrows(r[n], r[n + 1], who[n].0, who[n].1);
      TailStaysIf(r[n], r[n + 1], who[n].0, who[n].1);
      if who[n].0 == t {
        GrownList(r[n], r[n + 1]);
        SureOn(r[n], r[n + 1], t, who[n].1, AnswersOf(p, who[..n], t));
      } else {
        SureStays(r[n], r[n + 1], r[n].threads[t], AnswersOf(p, who[..n], t));
      }
    }
  }

  lemma GrownList(s: State, s': State)
    requires Grows(s, s')
    ensures s.appended <= s'.appended
  {}

  lemma TailStaysIf(s: State, s': State, t: nat, found: bool)
    requires StepOf(s, s', t, found) && Inv(s) && NoStop(s)
    ensures s.tail != Null ==> s'.tail != Null
  {
    hide StepOf, Inv, NoStop;
    if s.tail != Null { TailStays(s, s', t, found); }
  }

  lemma SureStays(s: State, s': State, th: Thread, m: Answers)
    requires Sure(s, th, m) && (s.tail != Null ==> s'.tail != Null) && Grows(s, s')
    ensures Sure(s', th, m)
  {}

  lemma SureFirst(s: State, t: nat)
    requires Init(s) && t < |s.threads|
    ensures Sure(s, s.threads[t], NONE_YET)
  {}

  /** Without a stop no add is lost: an adder that found the cache started and its
      image in the system has, when it ends, a node of its address in the list. */
  lemma {:induction false} NoAddIsLost(r: seq<State>, who: seq<(nat, bool)>, t: nat, a: nat)
    requires Scheduled(r, who) && NoStop(r[0]) && t < |r[0].threads| && r[0].threads[t] == Adder(Enter(a))
    requires t < |r[|who|].threads| && Ended(r[|who|].threads[t]) && Admitted(AnswersOf(r, who, t))
    ensures var s := r[|who|]; var now := s.threads[t].add;
            && now.Finished? && now.node in s.appended && now.node < |s.mem| && s.mem[now.node].addr == a
  {
    hide StepOf, NoStop, Fits, Read;
    RunSure(r, who, t);
    AdderFate(r, who, t);
  }

  // Has the adder been admitted, and is it past its link or over?
  predicate Listing(th: Thread, m: Answers) {
    && Admitted(m) && th.Adder?
    && (th.add.Move? || th.add.Exit? || th.add.Notify? || th.add.Tell? || Ended(th))
  }

  // How many of the first k threads began as adders of a and got to list it.
  ghost function Admissions(r: seq<State>, who: seq<(nat, bool)>, a: nat, k: nat): nat
    requires Scheduled(r, who) && k <= |r[0].threads| == |r[|who|].threads|
  {
    if k == 0 then 0
    else
      Admissions(r, who, a, k - 1) +
      if r[0].threads[k - 1] == Adder(Enter(a)) && Listing(r[|who|].threads[k - 1], AnswersOf(r, who, k - 1)) then 1 else 0
  }

  lemma {:induction false} ListingIsDone(r: seq<State>, who: seq<(nat, bool)>, t: nat, a: nat)
    requires Scheduled(r, who) && NoStop(r[0]) && t < |r[0].threads| == |r[|who|].threads|
    ensures r[0].threads[t] == Adder(Enter(a)) && Listing(r[|who|].threads[t], AnswersOf(r, who, t)) <==>
            Done(r[0].threads[t], r[|who|].threads[t]) == [H.Load(a)]
  {
    hide StepOf, NoStop, Init;
    if r[0].threads[t].Adder? {
      RunFits(r, who, t);
      RunSure(r, who, t);
    }
  }

  lemma {:induction false} AdmissionsAreCalls(r: seq<State>, who: seq<(nat, bool)>, a: nat, k: nat)
    requires Scheduled(r, who) && NoStop(r[0]) && k <= |r[0].threads| == |r[|who|].threads|
    ensures Calls(r[0].threads[..k], r[|who|].threads[..k], H.Load(a)) == Admissions(r, who, a, k)
  {
    hide Done, Listing, Init, StepOf, NoStop;
    if k > 0 {
      assert r[0].threads[..k][..k - 1] == r[0].threads[..k - 1];
      assert r[|who|].threads[..k][..k - 1] == r[|who|].threads[..k - 1];
      AdmissionsAreCalls(r, who, a, k - 1);
      ListingIsDone(r, who, k - 1, a);
    }
  }

  /** So, without a stop, the history holds each load exactly as often as adders of
      that address were admitted and are past their link or over. */
  lemma {:induction false} LoadsAreTheAdmitted(r: seq<State>, who: seq<(nat, bool)>, a: nat)
    requires Scheduled(r, who) && NoStop(r[0])
    ensures |r[|who|].threads| == |r[0].threads|
    ensures multiset(History(r, who))[H.Load(a)] == Admissions(r, who, a, |r[0].threads|)
  {
    hide Init, StepOf, NoStop, Done, Listing;
    HistoryIsTheCalls(r, who, H.Load(a));
    var k := |r[0].threads|;
    assert r[0].threads[..k] == r[0].threads && r[|who|].threads[..k] == r[|who|].threads;
    AdmissionsAreCalls(r, who, a, k);
  }

  // ----- with stops: what holds where a call lets the mutex go or gives up

  // An adder gives up, and frees the node it built, only in a stopped cache, and
  // goes on only in a started one; a start leaves the cache started and a stop
  // leaves it stopped.
  predicate Promised(s: State, th: Thread) {
    match th
    case Adder(a) => (a.Quit? || a.Drop? ==> s.tail == Null) && (a.Leave? || a.Link? || a.Exit? ==> s.tail != Null)
    case Starter(p) => p.Opened? ==> s.tail != Null
    case Stopper(p) => p.Free? || p.Closed? ==> s.tail == Null
    case _ => true
  }

  ghost predicate AllPromised(s: State) {
    forall t :: 0 <= t < |s.threads| ==> Promised(s, s.threads[t])
  }

  // Only the owner of the mutex writes the tail.
  lemma OwnerWritesTail(s: State, s': State, t: nat, found: bool)
    requires StepOf(s, s', t, found) && t < |s.threads|
    ensures s'.tail != s.tail ==> Critical(s.threads[t])
  {
    hide AddStep, RemoveStep, RegisterStep, StartStep, StopStep;
    match s.threads[t]
    case Adder(pc) => AdderWritesTail(s, t, pc, found);
    case Remover(pc) => RemoverKeepsTail(s, t, pc, found);
    case Registrar(pc) => RegistrarKeepsTail(s, t, pc);
    case Starter(pc) => StarterWritesTail(s, t, pc);
    case Stopper(pc) => StopperWritesTail(s, t, pc);
    case _ =>
  }

  lemma AdderWritesTail(s: State, t: nat, pc: Add, found: bool)
    requires t < |s.threads| && AddStep(s, t, pc, found).Some?
    ensures AddStep(s, t, pc, found).value.tail != s.tail ==> Critical(Adder(pc))
  {}

  lemma StarterWritesTail(s: State, t: nat, pc: Start)
    requires t < |s.threads| && StartStep(s, t, pc).Some?
    ensures StartStep(s, t, pc).value.tail != s.tail ==> Critical(Starter(pc))
  {}

  lemma StopperWritesTail(s: State, t: nat, pc: Stop)
    requires t < |s.threads| && StopStep(s, t, pc).Some?
    ensures StopStep(s, t, pc).value.tail != s.tail ==> Critical(Stopper(pc))
  {}

  lemma MoverPromises(s: State, s': State, t: nat, found: bool)
    requires StepOf(s, s', t, found) && Inv(s) && t < |s.threads| == |s'.threads| && Promised(s, s.threads[t])
    ensures Promised(s', s'.threads[t])
  {
    hide Inv, AddStep, RemoveStep, RegisterStep, StartStep, StopStep;
    match s.threads[t]
    case Adder(pc) => AdderPromises(s, t, pc, found);
    case Remover(pc) => RemoverPromises(s, t, pc, found);
    case Registrar(pc) => RegistrarMovesOn(s, t, pc);
    case Starter(pc) => StarterPromises(s, t, pc);
    case Stopper(pc) => StopperPromises(s, t, pc);
    case _ =>
  }

  lemma AdderPromises(s: State, t: nat, pc: Add, found: bool)
    requires t < |s.threads| && s.threads[t] == Adder(pc) && AddStep(s, t, pc, found).Some?
    requires Inv(s) && Promised(s, Adder(pc))
    ensures var s' := AddStep(s, t, pc, found).value; |s'.threads| == |s.threads| && Promised(s', s'.threads[t])
  {
    hide Inv;
    match pc
    case Move(_) => MoveFindsNext(s, t);
    case Link(_) =>
    case Enter(_) => case Check(_) => case Quit => case Leave(_) => case Build(_) => case Own(_) => case Recheck(_) =>
    case Drop(_) => case Exit(_) => case Notify(_) => case Tell(_) =>
  }

  lemma RemoverPromises(s: State, t: nat, pc: Remove, found: bool)
    requires t < |s.threads| && RemoveStep(s, t, pc, found).Some?
    ensures var s' := RemoveStep(s, t, pc, found).value; |s'.threads| == |s.threads| && s'.threads[t].Remover?
  {}

  lemma StarterPromises(s: State, t: nat, pc: Start)
    requires t < |s.threads| && s.threads[t] == Starter(pc) && StartStep(s, t, pc).Some?
    requires Inv(s) && Promised(s, Starter(pc))
    ensures var s' := StartStep(s, t, pc).value; |s'.threads| == |s.threads| && Promised(s', s'.threads[t])
  {
    if pc.ClearRoot? { OwnerNow(s, t); }
    hide Inv;
  }

  lemma StopperPromises(s: State, t: nat, pc: Stop)
    requires t < |s.threads| && StopStep(s, t, pc).Some? && Promised(s, Stopper(pc))
    ensures var s' := StopStep(s, t, pc).value; |s'.threads| == |s.threads| && Promised(s', s'.threads[t])
  {}

  lemma StepPromises(s: State, s': State, t: nat, found: bool)
    requires StepOf(s, s', t, found) && Inv(s) && AllPromised(s)
    ensures AllPromised(s')
  {
    hide StepOf, Inv, Promised;
    StepIsOfThread(s, s', t, found);
    StepFrame(s, s', t, found);
    MoverPromises(s, s', t, found);
    OwnerWritesTail(s, s', t, found);
    ExclusiveNow(s);
    forall u | 0 <= u < |s'.threads| && u != t ensures Promised(s', s'.threads[u]) {
      OtherPromises(s, s', t, u);
    }
  }

  lemma OtherPromises(s: State, s': State, t: nat, u: nat)
    requires Exclusive(s) && t < |s.threads| && u < |s.threads| && u != t && Promised(s, s.threads[u])
    requires s'.tail != s.tail ==> Critical(s.threads[t])
    ensures Promised(s', s.threads[u])
  {}

  lemma PromisedFirst(s: State)
    requires Init(s)
    ensures AllPromised(s)
  {}

  /** Over all interleavings, stops included: an adder is about to free the node it
      built, or to leave without a node, only while the cache is stopped, and about to
      link it, or done linking, only while it is started; whoever has started the
      cache finds it started when he lets the mutex go, and whoever has stopped it
      finds it stopped. */
  lemma {:induction false} RunPromises(r: seq<State>)
    requires Run(r)
    ensures AllPromised(Now(r))
  {
    hide Init, StepOf, Inv, AllPromised;
    if |r| == 1 {
      PromisedFirst(r[0]);
    } else {
      var p := r[..|r| - 1];
      RunPromises(p);
      RunInv(p);
      var s, s' := r[|r| - 2], r[|r| - 1];
      assert p[|r| - 2] == s && Step(s, s');
      var t: nat, found: bool :| StepOf(s, s', t, found);
      StepPromises(s, s', t, found);
    }
  }

  // ----- the removals

  // What a remover has found when it looked for the callback, and whether it has
  // handed its node over.
  datatype Removal = Removal(consulted: Option<bool>, handed: bool)

  function ReadRemoval(m: Removal, th: Thread, found: bool): Removal {
    if !th.Remover? then m
    else match th.remove
      case Consult(_) => m.(consulted := Some(found))
      case Hand(_) => m.(handed := true)
      case _ => m
  }

  ghost function RemovalOf(r: seq<State>, who: seq<(nat, bool)>, t: nat): Removal
    requires Scheduled(r, who) && t < |r[0].threads|
    decreases |who|
  {
    if who == [] then Removal(None, false)
    else
      var n := |who| - 1;
      assert StepOf(r[n], r[n + 1], who[n].0, who[n].1);
      var m := RemovalOf(r[..n + 1], who[..n], t);
      if who[n].0 == t then ReadRemoval(m, r[n].threads[t], who[n].1) else m
  }

  // A node of the address sought, marked.
  predicate Unloaded(s: State, n: nat, a: nat) { n < |s.mem| && s.mem[n].addr == a && !s.mem[n].available }

  predicate RemovalFits(s: State, pc: Remove, m: Removal, a: nat) {
    match pc
    case Compare(b, _, _) => b == a && m == Removal(None, false)
    case Follow(b, _, _) => b == a && m == Removal(None, false)
    case Matched(b, n, _) => b == a && m == Removal(None, false) && n < |s.mem| && s.mem[n].addr == a
    case Consult(n) => Unloaded(s, n, a) && m == Removal(None, false)
    case Hand(n) => Unloaded(s, n, a) && m == Removal(Some(true), false)
    case Marked(n) => Unloaded(s, n, a) && m == Removal(Some(m.handed), m.handed)
    case NoMatch => m == Removal(None, false)
  }

  // Nodes keep their addresses, and marks stay.
  ghost predicate KeepsNodes(s: State, s': State) {
    |s.mem| <= |s'.mem| &&
    forall n :: 0 <= n < |s.mem| ==> s'.mem[n].addr == s.mem[n].addr && (s'.mem[n].available ==> s.mem[n].available)
  }

  lemma StepKeepsNodes(s: State, s': State, t: nat, found: bool)
    requires StepOf(s, s', t, found)
    ensures KeepsNodes(s, s')
  {
    hide AddStep, RemoveStep, RegisterStep, StartStep, StopStep;
    match s.threads[t]
    case Adder(pc) => AddGrows(s, t, pc, found);
    case Remover(pc) => RemoveGrows(s, t, pc, found);
    case Registrar(pc) => RegisterGrows(s, t, pc);
    case Starter(pc) => StartGrows(s, t, pc);
    case Stopper(pc) => StopKeepsNodes(s, t, pc);
    case _ =>
  }

  lemma RemovalFitsOn(s: State, s': State, t: nat, found: bool, m: Removal, a: nat)
    requires StepOf(s, s', t, found) && t < |s.threads| && s.threads[t].Remover?
    requires RemovalFits(s, s.threads[t].remove, m, a)
    ensures |s'.threads| == |s.threads| && s'.threads[t].Remover?
    ensures RemovalFits(s', s'.threads[t].remove, ReadRemoval(m, s.threads[t], found), a)
  {
    match s.threads[t].remove
    case Compare(_, _, _) => case Follow(_, _, _) => case Matched(_, _, _) => case Consult(_) => case Hand(_) =>
  }

  lemma RemovalStays(s: State, s': State, pc: Remove, m: Removal, a: nat)
    requires RemovalFits(s, pc, m, a) && KeepsNodes(s, s')
    ensures RemovalFits(s', pc, m, a)
  {}

  lemma {:induction false} RunRemoval(r: seq<State>, who: seq<(nat, bool)>, t: nat)
    requires Scheduled(r, who) && t < |r[0].threads| && r[0].threads[t].Remover?
    ensures t < |r[|who|].threads| && r[|who|].threads[t].Remover? && r[0].threads[t].remove.Compare?
    ensures RemovalFits(r[|who|], r[|who|].threads[t].remove, RemovalOf(r, who, t), r[0].threads[t].remove.addr)
    decreases |who|
  {
    hide StepOf, RemovalFits, ReadRemoval, KeepsNodes;
    if who == [] {
      RemovalFirst(r[0], t);
    } else {
      var n := |who| - 1;
      var p := r[..n + 1];
      RunRemoval(p, who[..n], t);
      StepFrame(r[n], r[n + 1], who[n].0, who[n].1);
      StepKeepsNodes(r[n], r[n + 1], who[n].0, who[n].1);
      var m, a := RemovalOf(p, who[..n], t), r[0].threads[t].remove.addr;
      if who[n].0 == t {
        RemovalFitsOn(r[n], r[n + 1], t, who[n].1, m, a);
      } else {
        RemovalStays(r[n], r[n + 1], r[n].threads[t].remove, m, a);
      }
    }
  }

  lemma RemovalFirst(s: State, t: nat)
    requires Init(s) && t < |s.threads| && s.threads[t].Remover?
    ensures s.threads[t].remove.Compare? && RemovalFits(s, s.threads[t].remove, Removal(None, false), s.threads[t].remove.addr)
  {}

  /** The end of every removal, over all interleavings: one that found its image has
      marked a node of the address it was called with, for good, and has handed it to
      the callback exactly when there was one; one that did not has told nobody. */
  lemma {:induction false} RemoverFate(r: seq<State>, who: seq<(nat, bool)>, t: nat, a: nat)
    requires Scheduled(r, who) && t < |r[0].threads| && r[0].threads[t] == Remover(Compare(a, To(0), []))
    requires t < |r[|who|].threads|
    ensures var s, m := r[|who|], RemovalOf(r, who, t); var now := s.threads[t];
            && now.Remover?
            && (now.remove.Marked? ==> m.consulted == Some(m.handed) && Unloaded(s, now.remove.node, a))
            && (now.remove.NoMatch? ==> m.consulted == None && !m.handed)
  {
    hide StepOf;
    RunRemoval(r, who, t);
  }
}
