/**
  Starting and stopping the sampling profiler as interleaved atomic steps: any
  number of callers, the sampling threads they create, and the clock.  Creating a
  thread, receiving a message, setting an alarm and cancellation may go either way
  at every step.
 */
module Sampler {

  // startSampling and stopSampling; all but the first and last hold the mutex.  A
  // stop is astray while it cancels and joins a thread that was never created: the
  // two calls may fail, which is only logged, or never return.
  datatype Caller =
    | Start | StartCheck | SetFlag | ResetCount | Create | FirstAlarm | StartUnlock | Started
    | Stop | StopCheck | Cancel(target: nat) | Join(target: nat) | Astray | ClearFlag | StopUnlock | Stopped

  // samplingThreadMain
  datatype Phase = Poll | Receive | Rearm | Count | Sample | Ended

  // One session: its thread, whether it was cancelled, and (history) how many
  // samples it has counted.
  datatype Session = Session(phase: Phase, cancelled: bool, counted: nat)

  // `armed` alarms are pending, `queued` messages wait at the port, and (history)
  // `lost` counts the alarm calls that failed.  `failed` says that the latest start
  // to raise the flag could not create its thread, or the attributes for it.
  datatype State = State(
    isSampling: bool, numSamples: nat, owner: int, callers: seq<Caller>, sessions: seq<Session>,
    armed: nat, queued: nat, lost: nat, failed: bool)

  const NOBODY: int := -1

  ghost predicate Init(s: State) {
    && !s.isSampling && s.numSamples == 0 && s.owner == NOBODY && s.sessions == []
    && s.armed == s.queued == s.lost == 0 && !s.failed
    && forall c :: 0 <= c < |s.callers| ==> s.callers[c] == Start || s.callers[c] == Stop
  }

  function Goto(s: State, c: nat, pc: Caller): State
    requires c < |s.callers|
  {
    s.(callers := s.callers[c := pc])
  }

  // The step of caller c; `ok` says whether its system call succeeds, or returns.  The state is
  // unchanged when the caller has to wait.
  function Call(s: State, c: nat, ok: bool): State
    requires c < |s.callers|
  {
    match s.callers[c]
    case Start => if s.owner == NOBODY then Goto(s, c, StartCheck).(owner := c) else s
    case StartCheck => Goto(s, c, if s.isSampling then StartUnlock else SetFlag)
    case SetFlag => Goto(s, c, ResetCount).(isSampling := true, failed := false)
    case ResetCount => Goto(s, c, Create).(numSamples := 0)
    case Create =>
      if ok then Goto(s, c, FirstAlarm).(sessions := s.sessions + [Session(Poll, false, 0)])
      else Goto(s, c, StartUnlock).(failed := true)
    case FirstAlarm =>
      if ok then Goto(s, c, StartUnlock).(armed := s.armed + 1) else Goto(s, c, StartUnlock).(lost := s.lost + 1)
    case StartUnlock => Goto(s, c, Started).(owner := NOBODY)
    case Stop => if s.owner == NOBODY then Goto(s, c, StopCheck).(owner := c) else s
    case StopCheck =>
      if !s.isSampling then Goto(s, c, StopUnlock)
      else if s.failed || s.sessions == [] then Goto(s, c, Astray)
      else Goto(s, c, Cancel(|s.sessions| - 1))
    case Cancel(i) =>
      if i < |s.sessions| then
        Goto(s, c, Join(i)).(sessions := s.sessions[i := s.sessions[i].(cancelled := true)])
      else s
    case Join(i) => if i < |s.sessions| && s.sessions[i].phase == Ended then Goto(s, c, ClearFlag) else s
    case Astray => if ok then Goto(s, c, ClearFlag) else s
    case ClearFlag => Goto(s, c, StopUnlock).(isSampling := false)
    case StopUnlock => Goto(s, c, Stopped).(owner := NOBODY)
    case Started => s
    case Stopped => s
  }

  function Enter(s: State, i: nat, p: Phase): State
    requires i < |s.sessions|
  {
    s.(sessions := s.sessions[i := s.sessions[i].(phase := p)])
  }

  // The step of the thread of session i; `ok` is the outcome of its system call,
  // or whether it goes on past a cancellation point.
  function Run(s: State, i: nat, ok: bool): State
    requires i < |s.sessions|
  {
    var t := s.sessions[i];
    match t.phase
    case Poll => Enter(s, i, if t.cancelled then Ended else Receive)
    case Receive =>
      if !ok then Enter(s, i, Ended)
      else if s.queued == 0 then s
      else Enter(s, i, Rearm).(queued := s.queued - 1)
    case Rearm => if ok then Enter(s, i, Count).(armed := s.armed + 1) else Enter(s, i, Ended).(lost := s.lost + 1)
    case Count =>
      s.(numSamples := s.numSamples + 1, sessions := s.sessions[i := t.(phase := Sample, counted := t.counted + 1)])
    case Sample => Enter(s, i, if t.cancelled && !ok then Ended else Poll)
    case Ended => s
  }

  // An alarm goes off and its message is queued.
  function Fire(s: State): State {
    if s.armed > 0 then s.(armed := s.armed - 1, queued := s.queued + 1) else s
  }

  datatype Move = ByCaller(c: nat, ok: bool) | ByThread(i: nat, ok: bool) | ByClock

  ghost predicate StepOf(s: State, s': State, m: Move) {
    match m
    case ByCaller(c, ok) => c < |s.callers| && s' == Call(s, c, ok)
    case ByThread(i, ok) => i < |s.sessions| && s' == Run(s, i, ok)
    case ByClock => s' == Fire(s)
  }

  ghost predicate Step(s: State, s': State) { exists m: Move :: StepOf(s, s', m) }

  ghost predicate Trace(r: seq<State>) {
    |r| > 0 && Init(r[0]) && forall i :: 0 < i < |r| ==> Step(r[i - 1], r[i])
  }

  // ----- invariants

  predicate Holds(c: Caller) { !c.Start? && !c.Started? && !c.Stop? && !c.Stopped? }

  ghost predicate Exclusive(s: State) {
    && NOBODY <= s.owner < |s.callers|
    && forall c :: 0 <= c < |s.callers| ==> (Holds(s.callers[c]) <==> s.owner == c)
  }

  predicate AllEnded(ss: seq<Session>) { forall i :: 0 <= i < |ss| ==> ss[i].phase == Ended }

  function Current(s: State): nat { if s.sessions == [] then 0 else s.sessions[|s.sessions| - 1].counted }

  // What numSamples should be: nothing was counted for a session that never was.
  function Counted(s: State): nat { if s.failed then 0 else Current(s) }

  // What the mutex protects, by where its owner is.
  ghost predicate Protected(s: State, pc: Caller) {
    match pc
    case SetFlag => !s.isSampling && Quiet(s)
    case ResetCount => s.isSampling && !s.failed && AllEnded(s.sessions)
    case Create => s.isSampling && !s.failed && AllEnded(s.sessions) && s.numSamples == 0
    case FirstAlarm => s.isSampling && Live(s)
    case Cancel(i) => s.isSampling && Live(s) && i == |s.sessions| - 1
    case Join(i) => s.isSampling && Live(s) && i == |s.sessions| - 1
    case Astray => s.isSampling && s.failed && Quiet(s)
    case ClearFlag => s.isSampling && Quiet(s)
    case StartUnlock => s.isSampling && Settled(s)
    case StopUnlock => !s.isSampling && Settled(s)
    case _ => Settled(s)
  }

  // A session is open: earlier threads have ended and the counter is this session's.
  ghost predicate Live(s: State) {
    !s.failed && s.sessions != [] && AllEnded(s.sessions[..|s.sessions| - 1]) && s.numSamples == Counted(s)
  }

  ghost predicate Quiet(s: State) { AllEnded(s.sessions) && s.numSamples == Counted(s) }

  // With the flag up a session is open, unless its thread could not be created.
  ghost predicate Settled(s: State) { if s.isSampling && !s.failed then Live(s) else Quiet(s) }

  ghost predicate StateInv(s: State)
    requires Exclusive(s)
  {
    if s.owner == NOBODY then Settled(s) else Protected(s, s.callers[s.owner])
  }

  // Messages taken from the port and not yet followed by a new alarm.
  function InHand(ss: seq<Session>): nat {
    if ss == [] then 0 else InHand(ss[..|ss| - 1]) + if ss[|ss| - 1].phase == Rearm then 1 else 0
  }

  // Conservation of alarms: every session put one into circulation.
  ghost predicate Alarms(s: State)
    requires Exclusive(s)
  {
    s.armed + s.queued + InHand(s.sessions) + s.lost ==
    |s.sessions| - if s.owner != NOBODY && s.callers[s.owner] == FirstAlarm then 1 else 0
  }

  ghost predicate Inv(s: State) { Exclusive(s) && StateInv(s) && Alarms(s) }

  lemma {:induction false} InHandUpdate(ss: seq<Session>, i: nat, t: Session)
    requires i < |ss|
    ensures InHand(ss[i := t]) ==
            InHand(ss) - (if ss[i].phase == Rearm then 1 else 0) + (if t.phase == Rearm then 1 else 0)
  {
    var n := |ss| - 1;
    if i == n {
      assert ss[i := t][..n] == ss[..n];
    } else {
      assert ss[i := t][..n] == ss[..n][i := t];
      InHandUpdate(ss[..n], i, t);
    }
  }

  // A call takes the mutex when it is free, gives it back, or neither.
  lemma CallLocks(s: State, c: nat, ok: bool)
    requires c < |s.callers|
    ensures var s' := Call(s, c, ok);
            && |s'.callers| == |s.callers| && s'.callers == s.callers[c := s'.callers[c]]
            && (|| (s'.owner == s.owner && Holds(s'.callers[c]) == Holds(s.callers[c]))
                || (s.owner == NOBODY && s'.owner == c && Holds(s'.callers[c]))
                || (Holds(s.callers[c]) && s'.owner == NOBODY && !Holds(s'.callers[c])))
  {
    match s.callers[c]
    case Start => case StartCheck => case SetFlag => case ResetCount => case Create => case FirstAlarm =>
    case StartUnlock => case Stop => case StopCheck => case Cancel(_) => case Join(_) => case ClearFlag =>
    case StopUnlock => case Started => case Stopped => case Astray =>
  }

  lemma CallKeepsExclusive(s: State, c: nat, ok: bool)
    requires Exclusive(s) && c < |s.callers|
    ensures Exclusive(Call(s, c, ok))
  {
    hide Call;
    CallLocks(s, c, ok);
  }

  lemma CallKeepsState(s: State, c: nat, ok: bool)
    requires Exclusive(s) && StateInv(s) && c < |s.callers| && Exclusive(Call(s, c, ok))
    ensures StateInv(Call(s, c, ok))
  {
    hide Call, Protected, Settled;
    CallLocks(s, c, ok);
    if Holds(s.callers[c]) { OwnerMoves(s, c, ok); } else { OutsiderMoves(s, c, ok); }
  }

  ghost predicate Established(s: State, c: nat) {
    c < |s.callers| && if Holds(s.callers[c]) then Protected(s, s.callers[c]) else Settled(s)
  }

  // Inside the mutex each step establishes what the next position relies on.
  lemma OwnerMoves(s: State, c: nat, ok: bool)
    requires c < |s.callers| && Holds(s.callers[c]) && Protected(s, s.callers[c])
    ensures Established(Call(s, c, ok), c)
  {
    hide Call, Established, Protected;
    match s.callers[c]
    case Create => CreateMoves(s, c, ok);
    case Cancel(i) => CancelMoves(s, c, i, ok);
    case Join(i) => JoinMoves(s, c, i, ok);
    case _ => FlagMoves(s, c, ok);
  }

  lemma CreateMoves(s: State, c: nat, ok: bool)
    requires c < |s.callers| && s.callers[c] == Create && Protected(s, Create)
    ensures Established(Call(s, c, ok), c)
  {
    assert Call(s, c, true).sessions[..|s.sessions|] == s.sessions;
  }

  lemma CancelMoves(s: State, c: nat, i: nat, ok: bool)
    requires c < |s.callers| && s.callers[c] == Cancel(i) && Protected(s, Cancel(i))
    ensures Established(Call(s, c, ok), c)
  {
    assert Call(s, c, ok).sessions[..|s.sessions| - 1] == s.sessions[..|s.sessions| - 1];
  }

  lemma JoinMoves(s: State, c: nat, i: nat, ok: bool)
    requires c < |s.callers| && s.callers[c] == Join(i) && Protected(s, Join(i))
    ensures Established(Call(s, c, ok), c)
  {}

  // The steps that leave the sessions alone.
  lemma FlagMoves(s: State, c: nat, ok: bool)
    requires c < |s.callers| && Holds(s.callers[c]) && Protected(s, s.callers[c])
    requires !s.callers[c].Create? && !s.callers[c].Cancel? && !s.callers[c].Join?
    ensures Established(Call(s, c, ok), c)
  {
    hide AllEnded;
    match s.callers[c]
    case StartCheck => case SetFlag => case ResetCount => case FirstAlarm => case StartUnlock =>
    case StopCheck => case Astray => case ClearFlag => case StopUnlock =>
  }

  // Outside it a call waits or takes the mutex, and changes nothing else.
  lemma OutsiderMoves(s: State, c: nat, ok: bool)
    requires c < |s.callers| && !Holds(s.callers[c])
    ensures var s' := Call(s, c, ok);
            || s' == s
            || (s.owner == NOBODY && s'.owner == c < |s'.callers| && (Settled(s) ==> Protected(s', s'.callers[c])))
  {
    match s.callers[c]
    case Start => case Stop => case Started => case Stopped =>
  }

  lemma CallKeepsAlarms(s: State, c: nat, ok: bool)
    requires Exclusive(s) && Alarms(s) && c < |s.callers| && Exclusive(Call(s, c, ok))
    ensures Alarms(Call(s, c, ok))
  {
    hide InHand;
    match s.callers[c]
    case Start => case StartCheck => case SetFlag => case ResetCount =>
    case Create => InHandCreate(s.sessions);
    case FirstAlarm => case StartUnlock => case Stop => case StopCheck =>
    case Cancel(i) =>
      if i < |s.sessions| { InHandUpdate(s.sessions, i, s.sessions[i].(cancelled := true)); }
    case Join(_) => case ClearFlag => case StopUnlock => case Started => case Stopped => case Astray =>
  }

  lemma InHandCreate(ss: seq<Session>)
    ensures InHand(ss + [Session(Poll, false, 0)]) == InHand(ss)
  {
    assert (ss + [Session(Poll, false, 0)])[..|ss|] == ss;
  }

  // A sampling thread touches neither the mutex nor the callers.
  lemma RunKeepsState(s: State, i: nat, ok: bool)
    requires Exclusive(s) && StateInv(s) && i < |s.sessions|
    ensures Exclusive(Run(s, i, ok)) && StateInv(Run(s, i, ok))
  {
    var s' := Run(s, i, ok);
    assert s'.callers == s.callers && s'.owner == s.owner && s'.isSampling == s.isSampling;
    if s.sessions[i].phase != Ended {
      assert i == |s.sessions| - 1;
      assert s'.sessions[..i] == s.sessions[..i];
    }
  }

  lemma RunKeepsAlarms(s: State, i: nat, ok: bool)
    requires Exclusive(s) && Alarms(s) && i < |s.sessions| && Exclusive(Run(s, i, ok))
    ensures Alarms(Run(s, i, ok))
  {
    var s' := Run(s, i, ok);
    RunMovesAlarms(s, i, ok);
    hide InHand, Run, Exclusive;
    InHandUpdate(s.sessions, i, s'.sessions[i]);
  }

  lemma RunMovesAlarms(s: State, i: nat, ok: bool)
    requires i < |s.sessions|
    ensures var s' := Run(s, i, ok);
            && |s'.sessions| == |s.sessions| && s'.sessions == s.sessions[i := s'.sessions[i]]
            && s'.owner == s.owner && s'.callers == s.callers
            && s'.armed + s'.queued + s'.lost + (if s'.sessions[i].phase == Rearm then 1 else 0) ==
               s.armed + s.queued + s.lost + (if s.sessions[i].phase == Rearm then 1 else 0)
  {}

  lemma StepKeeps(s: State, s': State)
    requires Inv(s) && Step(s, s')
    ensures Inv(s')
  {
    hide Exclusive, StateInv, Alarms, Call, Run;
    var m: Move :| StepOf(s, s', m);
    match m
    case ByCaller(c, ok) =>
      CallKeepsExclusive(s, c, ok);
      CallKeepsState(s, c, ok);
      CallKeepsAlarms(s, c, ok);
    case ByThread(i, ok) =>
      RunKeepsState(s, i, ok);
      RunKeepsAlarms(s, i, ok);
    case ByClock =>
      FireKeeps(s);
  }

  lemma FireKeeps(s: State)
    requires Inv(s)
    ensures Inv(Fire(s))
  {}

  lemma {:induction false} TraceInv(r: seq<State>)
    requires Trace(r)
    ensures forall i :: 0 <= i < |r| ==> Inv(r[i])
  {
    hide Inv, Step, Init;
    if |r| == 1 {
      InitInv(r[0]);
    } else {
      TraceInv(r[..|r| - 1]);
      StepKeeps(r[|r| - 2], r[|r| - 1]);
    }
  }

  lemma InitInv(s: State)
    requires Init(s)
    ensures Inv(s)
  {}

  // ----- main results

  /** At most one sampling thread is alive, it is the latest session's, and while
      one is alive isSampling is set, in every interleaving of any number of starts
      and stops. */
  lemma OneLiveThread(r: seq<State>, k: nat, i: nat, j: nat)
    requires Trace(r) && k < |r| && i < |r[k].sessions| && j < |r[k].sessions|
    requires r[k].sessions[i].phase != Ended
    ensures r[k].isSampling && i == |r[k].sessions| - 1
    ensures r[k].sessions[j].phase != Ended ==> j == i
  {
    hide Trace;
    TraceInv(r);
    var s := r[k];
    var n := |s.sessions| - 1;
    assert Live(s) || AllEnded(s.sessions);
    assert forall x :: 0 <= x < n ==> s.sessions[..n][x] == s.sessions[x];
  }

  /** Whenever the mutex is free the sample count is the one of the latest session
      alone, or zero if its thread could not be created, and after a completed stop no
      sampling thread is left. */
  lemma CountsTheCurrentSession(r: seq<State>, k: nat)
    requires Trace(r) && k < |r| && r[k].owner == NOBODY
    ensures r[k].numSamples ==
            if r[k].failed || r[k].sessions == [] then 0 else r[k].sessions[|r[k].sessions| - 1].counted
    ensures !r[k].isSampling ==> AllEnded(r[k].sessions)
  {
    hide Trace;
    TraceInv(r);
  }

  /** A start about to give the mutex back has left the flag up, with its own session
      open or its creation failed; a stop has left it down and no thread alive. */
  lemma CallsDoTheirWork(r: seq<State>, k: nat, c: nat)
    requires Trace(r) && k < |r| && c < |r[k].callers|
    ensures r[k].callers[c] == StartUnlock ==> r[k].isSampling && (r[k].failed || r[k].sessions != [])
    ensures r[k].callers[c] == StopUnlock ==> !r[k].isSampling && AllEnded(r[k].sessions)
  {
    hide Trace;
    TraceInv(r);
  }

  // ----- what is counted

  predicate At(s: State, i: nat, p: Phase) { i < |s.sessions| && s.sessions[i].phase == p }

  // How often the thread of session i has gone from phase p to phase q.
  function Turns(r: seq<State>, i: nat, p: Phase, q: Phase): nat {
    if |r| <= 1 then 0
    else Turns(r[..|r| - 1], i, p, q) + if At(r[|r| - 2], i, p) && At(r[|r| - 1], i, q) then 1 else 0
  }

  function One(b: bool): nat { if b then 1 else 0 }

  // What a step can do to one session: nothing, open it, cancel it, or one turn.
  ghost predicate TurnOf(s: State, s': State, i: nat) {
    if i >= |s.sessions| then i < |s'.sessions| ==> s'.sessions[i] == Session(Poll, false, 0)
    else
      && i < |s'.sessions|
      && var t, t' := s.sessions[i], s'.sessions[i];
         && t'.counted == t.counted + One(t.phase == Count && t'.phase == Sample)
         && (t.cancelled ==> t'.cancelled)
         && ((t.phase == Poll || t.phase == Sample) && t'.phase == Ended ==> t.cancelled)
         && (t'.phase == t.phase
             || match t.phase
                case Poll => t'.phase == Receive || t'.phase == Ended
                case Receive => t'.phase == Rearm || t'.phase == Ended
                case Rearm => t'.phase == Count || t'.phase == Ended
                case Count => t'.phase == Sample
                case Sample => t'.phase == Poll || t'.phase == Ended
                case Ended => false)
  }

  lemma StepTurns(s: State, s': State, i: nat)
    requires Step(s, s')
    ensures TurnOf(s, s', i)
  {
    hide Call, Run;
    var m: Move :| StepOf(s, s', m);
    match m
    case ByCaller(c, ok) => CallTurns(s, c, ok, i);
    case ByThread(j, ok) => RunTurns(s, j, ok, i);
    case ByClock =>
  }

  lemma CallTurns(s: State, c: nat, ok: bool, i: nat)
    requires c < |s.callers|
    ensures TurnOf(s, Call(s, c, ok), i)
  {
    match s.callers[c]
    case Start => case StartCheck => case SetFlag => case ResetCount => case Create => case FirstAlarm =>
    case StartUnlock => case Stop => case StopCheck => case Cancel(_) => case Join(_) => case ClearFlag =>
    case StopUnlock => case Started => case Stopped => case Astray =>
  }

  lemma RunTurns(s: State, j: nat, ok: bool, i: nat)
    requires j < |s.sessions|
    ensures TurnOf(s, Run(s, j, ok), i)
  {}

  /** Every message a sampling thread takes is sampled once, or is on its way, or is
      lost with the alarm that could not be set; and a session has counted exactly its
      samples. */
  lemma {:induction false} EachMessageIsSampled(r: seq<State>, i: nat)
    requires Trace(r)
    ensures var s := r[|r| - 1];
            && (i < |s.sessions| ==> s.sessions[i].counted == Turns(r, i, Count, Sample))
            && Turns(r, i, Receive, Rearm) ==
               Turns(r, i, Count, Sample) + Turns(r, i, Rearm, Ended) + One(At(s, i, Rearm)) + One(At(s, i, Count))
            && (i >= |s.sessions| ==> Turns(r, i, Count, Sample) == 0)
  {
    hide Init, Step;
    if |r| == 1 {
      NoSessionYet(r[0]);
    } else {
      var p := r[..|r| - 1];
      assert p[|p| - 1] == r[|r| - 2] && Step(r[|r| - 2], r[|r| - 1]);
      EachMessageIsSampled(p, i);
      StepTurns(r[|r| - 2], r[|r| - 1], i);
    }
  }

  /** A sampling thread ends once, and only because it was cancelled, a message could
      not be received or an alarm could not be set. */
  lemma {:induction false} EndsForAReason(r: seq<State>, i: nat)
    requires Trace(r)
    ensures var s, cut := r[|r| - 1], Turns(r, i, Poll, Ended) + Turns(r, i, Sample, Ended);
            && One(At(s, i, Ended)) == cut + Turns(r, i, Receive, Ended) + Turns(r, i, Rearm, Ended)
            && (cut > 0 ==> i < |s.sessions| && s.sessions[i].cancelled)
  {
    hide Init, Step;
    if |r| == 1 {
      NoSessionYet(r[0]);
    } else {
      var p := r[..|r| - 1];
      assert p[|p| - 1] == r[|r| - 2] && Step(r[|r| - 2], r[|r| - 1]);
      EndsForAReason(p, i);
      StepTurns(r[|r| - 2], r[|r| - 1], i);
    }
  }

  lemma NoSessionYet(s: State)
    requires Init(s)
    ensures s.sessions == []
  {}

  /** So while the mutex is free, and no creation has failed, numSamples is how often
      the thread of the latest session has sampled. */
  lemma NumSamplesIsTheSamples(r: seq<State>)
    requires Trace(r) && r[|r| - 1].owner == NOBODY && !r[|r| - 1].failed && |r[|r| - 1].sessions| > 0
    ensures var s := r[|r| - 1]; s.numSamples == Turns(r, |s.sessions| - 1, Count, Sample)
  {
    hide Init, Step;
    CountsTheCurrentSession(r, |r| - 1);
    EachMessageIsSampled(r, |r[|r| - 1].sessions| - 1);
  }

  // ----- failed creations

  // In this step a stop lowers the flag.
  ghost predicate Clears(s: State, s': State) {
    exists c: nat :: c < |s.callers| && s.callers[c] == ClearFlag && StepOf(s, s', ByCaller(c, true))
  }

  // Where a caller can be while the flag is up for a thread that does not exist.
  predicate Possible(pc: Caller) {
    pc.Start? || pc.StartCheck? || pc.StartUnlock? || pc.Started? ||
    pc.Stop? || pc.StopCheck? || pc.Astray? || pc.ClearFlag? || pc.StopUnlock? || pc.Stopped?
  }

  lemma FailedOwner(s: State, c: nat)
    requires Inv(s) && s.failed && s.isSampling && c < |s.callers|
    ensures Possible(s.callers[c]) && AllEnded(s.sessions) && s.numSamples == 0
  {
    hide Alarms;
  }

  lemma FailedCall(s: State, c: nat, ok: bool)
    requires c < |s.callers| && Possible(s.callers[c]) && s.failed && s.isSampling
    ensures var s' := Call(s, c, ok);
            s'.failed && s'.sessions == s.sessions && (s.callers[c] != ClearFlag ==> s'.isSampling)
    ensures s.callers[c] == ClearFlag ==> Clears(s, Call(s, c, ok))
  {
    if s.callers[c] == ClearFlag { assert StepOf(s, Call(s, c, ok), ByCaller(c, true)); }
  }

  lemma FailedRun(s: State, i: nat, ok: bool)
    requires i < |s.sessions| && AllEnded(s.sessions)
    ensures Run(s, i, ok) == s
  {}

  lemma FailedStays(s: State, s': State)
    requires Inv(s) && Step(s, s') && s.failed && s.isSampling && !Clears(s, s')
    ensures s'.failed && s'.isSampling && s'.sessions == s.sessions
  {
    hide Call, Run, Inv, Clears;
    var m: Move :| StepOf(s, s', m);
    match m
    case ByCaller(c, ok) =>
      FailedOwner(s, c);
      FailedCall(s, c, ok);
    case ByThread(i, ok) =>
      AllHaveEnded(s);
      FailedRun(s, i, ok);
    case ByClock =>
  }

  lemma AllHaveEnded(s: State)
    requires Inv(s) && s.failed && s.isSampling
    ensures AllEnded(s.sessions) && s.numSamples == 0
  {
    hide Alarms;
  }

  /** What a failed creation does: isSampling stays set, nothing is sampled and no
      start opens a session, until a stop lowers the flag. */
  lemma {:induction false} FailedCreationLasts(r: seq<State>, k: nat, j: nat)
    requires Trace(r) && k <= j < |r| && r[k].failed && r[k].isSampling
    requires forall m :: k <= m < j ==> !Clears(r[m], r[m + 1])
    ensures r[j].failed && r[j].isSampling && r[j].numSamples == 0
    ensures r[j].sessions == r[k].sessions && AllEnded(r[j].sessions)
    decreases j
  {
    hide Init, Step, Inv, Clears;
    TraceInv(r);
    AllHaveEnded(r[k]);
    if k < j {
      FailedCreationLasts(r, k, j - 1);
      assert Step(r[j - 1], r[j]) && !Clears(r[j - 1], r[j - 1 + 1]);
      FailedStays(r[j - 1], r[j]);
      AllHaveEnded(r[j]);
    }
  }

  /** A stop goes astray if and only if it finds isSampling set by a start whose
      thread could not be created. */
  lemma StopGoesAstrayIff(r: seq<State>, k: nat, c: nat, ok: bool)
    requires Trace(r) && k < |r| && c < |r[k].callers| && r[k].callers[c] == StopCheck
    ensures Call(r[k], c, ok).callers[c] == Astray <==> r[k].isSampling && r[k].failed
  {
    hide Trace;
    TraceInv(r);
  }

  /** Alarms are conserved: each start puts one into circulation, where it stays
      across stops and restarts until an alarm call fails; so the outstanding
      alarms and messages never exceed the number of starts. */
  lemma AlarmsAreConserved(r: seq<State>, k: nat)
    requires Trace(r) && k < |r|
    ensures r[k].armed + r[k].queued <= |r[k].sessions|
    ensures r[k].owner == NOBODY ==>
              r[k].armed + r[k].queued + InHand(r[k].sessions) + r[k].lost == |r[k].sessions|
  {
    hide Trace;
    TraceInv(r);
  }

  // ----- two sessions, two alarms

  lemma Go(r: seq<State>, m: Move) returns (r': seq<State>)
    requires Trace(r)
    requires m.ByCaller? ==> m.c < |r[|r| - 1].callers|
    requires m.ByThread? ==> m.i < |r[|r| - 1].sessions|
    ensures Trace(r') && StepOf(r[|r| - 1], r'[|r'| - 1], m)
  {
    hide Init, Call, Run;
    var s := r[|r| - 1];
    var s' := match m case ByCaller(c, ok) => Call(s, c, ok) case ByThread(i, ok) => Run(s, i, ok) case ByClock => Fire(s);
    r' := r + [s'];
    assert StepOf(s, s', m);
    forall i | 0 < i < |r'| ensures Step(r'[i - 1], r'[i]) {
      if i < |r| { assert Step(r[i - 1], r[i]); }
    }
  }

  // The session is open, at the top of its loop, with an alarm or a message on its way.
  predicate Ticking(s: State) {
    s.sessions != [] && s.armed + s.queued > 0 &&
    s.sessions[|s.sessions| - 1].phase == Poll && !s.sessions[|s.sessions| - 1].cancelled
  }

  // So much further on, the session has counted so many more.
  predicate Ticked(s: State, s': State, n: nat) {
    && s.sessions != [] && |s'.sessions| == |s.sessions|
    && s'.numSamples == s.numSamples + n && s'.armed + s'.queued == s.armed + s.queued && s'.callers == s.callers
    && var t := s.sessions[|s.sessions| - 1]; s'.sessions == s.sessions[|s.sessions| - 1 := t.(counted := t.counted + n)]
  }

  // What a turn of the latest thread makes of the state when nothing fails.
  function Turned(s: State): State
    requires s.sessions != []
  {
    var i := |s.sessions| - 1;
    var t := s.sessions[i];
    match t.phase
    case Poll => s.(sessions := s.sessions[i := t.(phase := Receive)])
    case Receive => s.(sessions := s.sessions[i := t.(phase := Rearm)], queued := if s.queued > 0 then s.queued - 1 else 0)
    case Rearm => s.(sessions := s.sessions[i := t.(phase := Count)], armed := s.armed + 1)
    case Count =>
      s.(sessions := s.sessions[i := t.(phase := Sample, counted := t.counted + 1)], numSamples := s.numSamples + 1)
    case Sample => s.(sessions := s.sessions[i := t.(phase := Poll)])
    case Ended => s
  }

  predicate CanTurn(s: State) {
    s.sessions != [] &&
    var t := s.sessions[|s.sessions| - 1]; !t.cancelled && (t.phase == Receive ==> s.queued > 0)
  }

  lemma TurnsOnce(r: seq<State>) returns (r': seq<State>)
    requires Trace(r) && CanTurn(r[|r| - 1])
    ensures Trace(r') && r'[|r'| - 1] == Turned(r[|r| - 1])
  {
    hide Init, Step, Call;
    r' := Go(r, ByThread(|r[|r| - 1].sessions| - 1, true));
  }

  lemma TicksOnce(r: seq<State>) returns (r': seq<State>)
    requires Trace(r) && Ticking(r[|r| - 1])
    ensures Trace(r') && Ticked(r[|r| - 1], r'[|r'| - 1], 1)
  {
    hide Init, Call, Run, Step, StepOf;
    var s := r[|r| - 1];
    r' := r;
    if s.queued == 0 { r' := Fires(r); }
    r' := TurnsOnce(r');
    r' := TurnsOnce(r');
    r' := TurnsOnce(r');
    r' := TurnsOnce(r');
    r' := TurnsOnce(r');
  }

  lemma Fires(r: seq<State>) returns (r': seq<State>)
    requires Trace(r) && r[|r| - 1].armed > 0
    ensures Trace(r')
    ensures var s := r[|r| - 1]; r'[|r'| - 1] == s.(armed := s.armed - 1, queued := s.queued + 1)
  {
    hide Trace, Call, Run;
    r' := Go(r, ByClock);
  }

  /** The sampler goes on sampling: with an alarm on its way every run can be
      continued to any number of further samples, the alarms staying as many. */
  lemma {:induction false} KeepsSampling(r: seq<State>, n: nat) returns (r': seq<State>)
    requires Trace(r) && Ticking(r[|r| - 1])
    ensures Trace(r') && Ticked(r[|r| - 1], r'[|r'| - 1], n)
  {
    hide Trace;
    if n == 0 {
      r' := r;
    } else {
      r' := KeepsSampling(r, n - 1);
      r' := TicksOnce(r');
    }
  }

  // A start on a quiet sampler, its alarm call succeeding.
  lemma Starts(r: seq<State>, c: nat) returns (r': seq<State>)
    requires Trace(r) && c < |r[|r| - 1].callers| && r[|r| - 1].callers[c] == Start
    requires r[|r| - 1].owner == NOBODY && !r[|r| - 1].isSampling
    ensures Trace(r')
    ensures var s := r[|r| - 1];
            r'[|r'| - 1] == s.(isSampling := true, numSamples := 0, callers := s.callers[c := Started],
                               sessions := s.sessions + [Session(Poll, false, 0)], armed := s.armed + 1,
                               failed := false)
  {
    r' := Go(r, ByCaller(c, true));
    r' := Go(r', ByCaller(c, true));
    r' := Go(r', ByCaller(c, true));
    r' := Go(r', ByCaller(c, true));
    r' := Go(r', ByCaller(c, true));
    r' := Go(r', ByCaller(c, true));
    r' := Go(r', ByCaller(c, true));
  }

  // A stop of the only session gets as far as joining its thread, which is about to poll.
  lemma Cancels(r: seq<State>, c: nat) returns (r': seq<State>)
    requires Trace(r) && c < |r[|r| - 1].callers| && r[|r| - 1].callers[c] == Stop
    requires r[|r| - 1].owner == NOBODY && r[|r| - 1].isSampling
    requires r[|r| - 1].sessions == [Session(Poll, false, 0)] && !r[|r| - 1].failed
    ensures Trace(r')
    ensures var s := r[|r| - 1];
            r'[|r'| - 1] == s.(owner := c, callers := s.callers[c := Join(0)], sessions := [Session(Ended, true, 0)])
  {
    r' := Go(r, ByCaller(c, true));
    r' := Go(r', ByCaller(c, true));
    r' := Go(r', ByCaller(c, true));
    r' := Go(r', ByThread(0, true));
  }

  lemma Stops(r: seq<State>, c: nat) returns (r': seq<State>)
    requires Trace(r) && c < |r[|r| - 1].callers| && r[|r| - 1].callers[c] == Stop
    requires r[|r| - 1].owner == NOBODY && r[|r| - 1].isSampling
    requires r[|r| - 1].sessions == [Session(Poll, false, 0)] && !r[|r| - 1].failed
    ensures Trace(r')
    ensures var s := r[|r| - 1];
            r'[|r'| - 1] == s.(isSampling := false, callers := s.callers[c := Stopped],
                               sessions := [Session(Ended, true, 0)])
  {
    r' := Cancels(r, c);
    r' := Go(r', ByCaller(c, true));
    r' := Go(r', ByCaller(c, true));
    r' := Go(r', ByCaller(c, true));
  }

  /** A restart adds an alarm to the one still on its way: after start, stop and
      start two are pending for the one live thread. */
  lemma RestartAddsAnAlarm() returns (r: seq<State>)
    ensures Trace(r)
    ensures r[|r| - 1].callers == [Started, Stopped, Started] && r[|r| - 1].armed == 2
    ensures r[|r| - 1].sessions == [Session(Ended, true, 0), Session(Poll, false, 0)]
  {
    r := [State(false, 0, NOBODY, [Start, Stop, Start], [], 0, 0, 0, false)];
    r := Starts(r, 0);
    assert r[|r| - 1].sessions == [Session(Poll, false, 0)];
    r := Stops(r, 1);
    r := Starts(r, 2);
  }

  // A start on a quiet sampler whose thread cannot be created.
  lemma StartsInVain(r: seq<State>, c: nat) returns (r': seq<State>)
    requires Trace(r) && c < |r[|r| - 1].callers| && r[|r| - 1].callers[c] == Start
    requires r[|r| - 1].owner == NOBODY && !r[|r| - 1].isSampling
    ensures Trace(r')
    ensures var s := r[|r| - 1];
            r'[|r'| - 1] == s.(isSampling := true, numSamples := 0, callers := s.callers[c := Started], failed := true)
  {
    r' := Go(r, ByCaller(c, true));
    r' := Go(r', ByCaller(c, true));
    r' := Go(r', ByCaller(c, true));
    r' := Go(r', ByCaller(c, true));
    r' := Go(r', ByCaller(c, false));
    r' := Go(r', ByCaller(c, true));
  }

  // A stop of a session that never was, when cancel and join return.
  lemma StopsInVain(r: seq<State>, c: nat) returns (r': seq<State>)
    requires Trace(r) && c < |r[|r| - 1].callers| && r[|r| - 1].callers[c] == Stop
    requires r[|r| - 1].owner == NOBODY && r[|r| - 1].isSampling && r[|r| - 1].failed
    ensures Trace(r')
    ensures var s := r[|r| - 1];
            r'[|r'| - 1] == s.(isSampling := false, callers := s.callers[c := Stopped])
  {
    r' := Go(r, ByCaller(c, true));
    r' := Go(r', ByCaller(c, true));
    r' := Go(r', ByCaller(c, true));
    r' := Go(r', ByCaller(c, true));
    r' := Go(r', ByCaller(c, true));
  }

  /** After a start whose thread cannot be created, a stop whose cancel and join of the
      missing thread return makes the sampler work again: the next start opens a
      session. */
  lemma RecoversFromFailedStart() returns (r: seq<State>)
    ensures Trace(r)
    ensures r[|r| - 1].callers == [Started, Stopped, Started] && r[|r| - 1].isSampling
    ensures r[|r| - 1].sessions == [Session(Poll, false, 0)] && r[|r| - 1].armed == 1
  {
    r := [State(false, 0, NOBODY, [Start, Stop, Start], [], 0, 0, 0, false)];
    r := StartsInVain(r, 0);
    r := StopsInVain(r, 1);
    r := Starts(r, 2);
  }
}
