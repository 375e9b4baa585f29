/**
  Freezing the thread-name cache: an atomic counter that callers raise and lower,
  and one monitor thread that updates only when it reads a count of at most zero.
 */
module FreezeProtocol {

  // A call of freeze or unfreeze.  An unfreeze that makes the counter negative
  // puts its one back in a second step.
  datatype Caller = Freeze | Frozen | Unfreeze | PutBack | Unfrozen

  // The monitor's loop: it tests the counter, perhaps updates, and sleeps.
  datatype Monitor = Test | Update | Sleep

  // `freezes`, `effective` and `updates` are history: completed freezes,
  // unfreezes that found something to undo, completed updates.
  datatype State = State(count: int, monitor: Monitor, callers: seq<Caller>, freezes: nat, effective: nat, updates: nat)

  ghost predicate Init(s: State) {
    && s.count == 0 && s.monitor == Test && s.freezes == s.effective == s.updates == 0
    && forall c :: 0 <= c < |s.callers| ==> s.callers[c] == Freeze || s.callers[c] == Unfreeze
  }

  function Call(s: State, c: nat): State
    requires c < |s.callers|
  {
    match s.callers[c]
    case Freeze => s.(count := s.count + 1, freezes := s.freezes + 1, callers := s.callers[c := Frozen])
    case Unfreeze =>
      if s.count - 1 < 0 then s.(count := s.count - 1, callers := s.callers[c := PutBack])
      else s.(count := s.count - 1, effective := s.effective + 1, callers := s.callers[c := Unfrozen])
    case PutBack => s.(count := s.count + 1, callers := s.callers[c := Unfrozen])
    case Frozen => s
    case Unfrozen => s
  }

  function Watch(s: State): State {
    match s.monitor
    case Test => s.(monitor := if s.count <= 0 then Update else Sleep)
    case Update => s.(monitor := Sleep, updates := s.updates + 1)
    case Sleep => s.(monitor := Test)
  }

  ghost predicate Step(s: State, s': State) {
    s' == Watch(s) || exists c :: 0 <= c < |s.callers| && s' == Call(s, c)
  }

  ghost predicate Run(r: seq<State>) {
    |r| > 0 && Init(r[0]) && forall i :: 0 < i < |r| ==> Step(r[i - 1], r[i])
  }

  // Unfreezes that have taken one too many and not yet put it back.
  function InFlight(cs: seq<Caller>): nat {
    if cs == [] then 0 else InFlight(cs[..|cs| - 1]) + if cs[|cs| - 1] == PutBack then 1 else 0
  }

  function Outstanding(s: State): int { s.freezes - s.effective }

  lemma {:induction false} InFlightUpdate(cs: seq<Caller>, i: nat, c: Caller)
    requires i < |cs|
    ensures InFlight(cs[i := c]) ==
            InFlight(cs) - (if cs[i] == PutBack then 1 else 0) + (if c == PutBack then 1 else 0)
  {
    var n := |cs| - 1;
    if i == n {
      assert cs[i := c][..n] == cs[..n];
    } else {
      assert cs[i := c][..n] == cs[..n][i := c];
      InFlightUpdate(cs[..n], i, c);
    }
  }

  ghost predicate Inv(s: State) {
    s.count == Outstanding(s) - InFlight(s.callers) && Outstanding(s) >= 0
  }

  lemma {:induction false} NoneInFlight(cs: seq<Caller>)
    requires forall i :: 0 <= i < |cs| ==> cs[i] != PutBack
    ensures InFlight(cs) == 0
  {
    if cs != [] { NoneInFlight(cs[..|cs| - 1]); }
  }

  lemma StepKeeps(s: State, s': State)
    requires Inv(s) && Step(s, s')
    ensures Inv(s')
  {
    if s' != Watch(s) {
      var c :| 0 <= c < |s.callers| && s' == Call(s, c);
      InFlightUpdate(s.callers, c, s'.callers[c]);
      assert s'.callers == s.callers[c := s'.callers[c]];
    }
  }

  lemma {:induction false} RunInv(r: seq<State>)
    requires Run(r)
    ensures forall i :: 0 <= i < |r| ==> Inv(r[i])
  {
    hide Init, Step, Inv;
    if |r| == 1 {
      InitInv(r[0]);
    } else {
      RunInv(r[..|r| - 1]);
      assert Step(r[|r| - 2], r[|r| - 1]);
      StepKeeps(r[|r| - 2], r[|r| - 1]);
    }
  }

  lemma InitInv(s: State)
    requires Init(s)
    ensures Inv(s)
  {
    NoneInFlight(s.callers);
  }

  /** The exact value of the counter in every interleaving.  It equals the
      outstanding freezes whenever no unfreeze is between its two steps, and it is
      positive, so that no update can begin, exactly when fewer unfreezes are in
      flight than freezes are outstanding. */
  lemma CounterIsExact(r: seq<State>, i: nat)
    requires Run(r) && i < |r|
    ensures var s := r[i];
            && s.count == Outstanding(s) - InFlight(s.callers) && Outstanding(s) >= 0
            && (s.count > 0 <==> InFlight(s.callers) < Outstanding(s))
  {
    RunInv(r);
  }

  // ----- what a caller can observe

  // Calls of unfreeze that have begun.
  function Begun(cs: seq<Caller>): nat {
    if cs == [] then 0
    else Begun(cs[..|cs| - 1]) + if cs[|cs| - 1] == PutBack || cs[|cs| - 1] == Unfrozen then 1 else 0
  }

  lemma {:induction false} BegunUpdate(cs: seq<Caller>, i: nat, c: Caller)
    requires i < |cs|
    ensures Begun(cs[i := c]) ==
            Begun(cs) - (if cs[i] == PutBack || cs[i] == Unfrozen then 1 else 0)
                      + (if c == PutBack || c == Unfrozen then 1 else 0)
  {
    var n := |cs| - 1;
    if i == n {
      assert cs[i := c][..n] == cs[..n];
    } else {
      assert cs[i := c][..n] == cs[..n][i := c];
      BegunUpdate(cs[..n], i, c);
    }
  }

  lemma {:induction false} NoneBegun(cs: seq<Caller>)
    requires forall i :: 0 <= i < |cs| ==> cs[i] != PutBack && cs[i] != Unfrozen
    ensures Begun(cs) == 0
  {
    if cs != [] { NoneBegun(cs[..|cs| - 1]); }
  }

  // Every unfreeze that has begun has undone a freeze, and none is putting back.
  ghost predicate AllUndid(s: State) {
    && s.effective == Begun(s.callers) && InFlight(s.callers) == 0
    && s.count == s.freezes - Begun(s.callers)
  }

  // At no point of the run have more unfreezes begun than freezes.
  ghost predicate NeverAhead(r: seq<State>) {
    forall i :: 0 <= i < |r| ==> Begun(r[i].callers) <= r[i].freezes
  }

  lemma StepUndoes(s: State, s': State)
    requires Inv(s) && Step(s, s') && AllUndid(s) && Begun(s'.callers) <= s'.freezes
    ensures AllUndid(s')
  {
    if s' != Watch(s) {
      var c :| 0 <= c < |s.callers| && s' == Call(s, c);
      CallUndoes(s, c);
    }
  }

  lemma CallUndoes(s: State, c: nat)
    requires c < |s.callers| && Inv(s) && AllUndid(s) && Begun(Call(s, c).callers) <= Call(s, c).freezes
    ensures AllUndid(Call(s, c))
  {
    var s' := Call(s, c);
    InFlightUpdate(s.callers, c, s'.callers[c]);
    BegunUpdate(s.callers, c, s'.callers[c]);
    assert s'.callers == s.callers[c := s'.callers[c]];
    InFlightAt(s.callers, c);
    hide InFlight, Begun;
  }

  lemma {:induction false} InFlightAt(cs: seq<Caller>, i: nat)
    requires i < |cs|
    ensures cs[i] == PutBack ==> InFlight(cs) > 0
  {
    if i < |cs| - 1 { InFlightAt(cs[..|cs| - 1], i); }
  }

  lemma {:induction false} RunUndoes(r: seq<State>)
    requires Run(r) && NeverAhead(r)
    ensures forall i :: 0 <= i < |r| ==> AllUndid(r[i])
  {
    hide Init, Step, Inv, AllUndid, Begun;
    if |r| == 1 {
      NothingYet(r[0]);
    } else {
      var p := r[..|r| - 1];
      RunUndoes(p);
      RunInv(p);
      assert AllUndid(p[|p| - 1]) && Inv(p[|p| - 1]) && Step(r[|r| - 2], r[|r| - 1]);
      StepUndoes(r[|r| - 2], r[|r| - 1]);
    }
  }

  lemma NothingYet(s: State)
    requires Init(s)
    ensures AllUndid(s)
  {
    NoneInFlight(s.callers);
    NoneBegun(s.callers);
  }

  /** At the callers' level, over whole runs: every unfreeze takes effect, with the
      counter always the freezes less the unfreezes begun, if and only if at no point
      more unfreezes have begun than freezes. */
  lemma UnfreezesTakeEffectIff(r: seq<State>)
    requires Run(r)
    ensures (forall i :: 0 <= i < |r| ==> AllUndid(r[i])) <==> NeverAhead(r)
  {
    hide Run;
    RunInv(r);
    if NeverAhead(r) { RunUndoes(r); }
    if forall i :: 0 <= i < |r| ==> AllUndid(r[i]) {
      forall i | 0 <= i < |r| ensures Begun(r[i].callers) <= r[i].freezes {
        assert Inv(r[i]) && AllUndid(r[i]);
      }
    }
  }

  // What a surplus unfreeze can do when it is caught between its two steps by a
  // whole freeze and the next unfreeze.
  function RacingRun(): seq<State> {
    var s0 := State(0, Test, [Unfreeze, Freeze, Unfreeze], 0, 0, 0);
    var s1 := Call(s0, 0);
    var s2 := Call(s1, 1);
    var s3 := Call(s2, 2);
    var s4 := Call(s3, 0);
    [s0, s1, s2, s3, s4, Call(s4, 2)]
  }

  /** In that run the freeze ends before the unfreeze meant for it begins, and yet
      the counter stays at one when all calls are over. */
  lemma FreezeCanGetStuck()
    ensures var r := RacingRun();
            Run(r) && r[2].callers[1] == Frozen && r[2].callers[2] == Unfreeze &&
            r[5].callers == [Unfrozen, Frozen, Unfrozen] && r[5].count == 1
  {
    var r := RacingRun();
    assert r[1] == Call(r[0], 0) && r[2] == Call(r[1], 1) && r[3] == Call(r[2], 2);
    assert r[4] == Call(r[3], 0) && r[5] == Call(r[4], 2);
    forall i | 0 < i < |r| ensures Step(r[i - 1], r[i]) {
      if i == 1 || i == 4 { assert r[i] == Call(r[i - 1], 0); }
      else if i == 2 { assert r[i] == Call(r[i - 1], 1); }
      else { assert r[i] == Call(r[i - 1], 2); }
    }
  }

  // ----- updates while frozen

  ghost predicate FrozenDuring(r: seq<State>, i: nat, j: nat) {
    i <= j < |r| && forall k :: i <= k <= j ==> r[k].count > 0
  }

  /** While the counter stays positive at most one update completes, and only if
      the monitor had already passed its check; none begins. */
  lemma {:induction false} AtMostOneUpdateWhileFrozen(r: seq<State>, i: nat, j: nat)
    requires Run(r) && FrozenDuring(r, i, j)
    ensures r[j].updates <= r[i].updates + if r[i].monitor == Update then 1 else 0
    ensures r[j].monitor == Update ==> r[i].monitor == Update && r[j].updates == r[i].updates
    decreases j
  {
    if i < j {
      AtMostOneUpdateWhileFrozen(r, i, j - 1);
      assert Step(r[j - 1], r[j]);
    }
  }

  // ----- what the monitor and the callers have done

  // How often the monitor has finished an update.
  function Updates(r: seq<State>): nat {
    if |r| <= 1 then 0
    else
      Updates(r[..|r| - 1]) +
      if r[|r| - 2].monitor == Update && r[|r| - 1].monitor != Update then 1 else 0
  }

  function FrozenCallers(cs: seq<Caller>): nat {
    if cs == [] then 0 else FrozenCallers(cs[..|cs| - 1]) + if cs[|cs| - 1] == Frozen then 1 else 0
  }

  lemma {:induction false} FrozenUpdate(cs: seq<Caller>, i: nat, c: Caller)
    requires i < |cs|
    ensures FrozenCallers(cs[i := c]) ==
            FrozenCallers(cs) - (if cs[i] == Frozen then 1 else 0) + (if c == Frozen then 1 else 0)
  {
    var n := |cs| - 1;
    if i == n {
      assert cs[i := c][..n] == cs[..n];
    } else {
      assert cs[i := c][..n] == cs[..n][i := c];
      FrozenUpdate(cs[..n], i, c);
    }
  }

  lemma {:induction false} NoneFrozen(cs: seq<Caller>)
    requires forall i :: 0 <= i < |cs| ==> cs[i] != Frozen
    ensures FrozenCallers(cs) == 0
  {
    if cs != [] { NoneFrozen(cs[..|cs| - 1]); }
  }

  lemma NobodyFrozen(s: State)
    requires Init(s)
    ensures s.freezes == s.updates == 0 && FrozenCallers(s.callers) == 0
  {
    NoneFrozen(s.callers);
  }

  /** A monitor that moves on from its test goes to update if and only if the counter
      was at most zero, and otherwise to sleep; from an update it goes to sleep and
      from sleep to its test. */
  lemma MonitorUpdatesIff(r: seq<State>, k: nat)
    requires Run(r) && k + 1 < |r| && r[k + 1].monitor != r[k].monitor
    ensures r[k].monitor == Test ==> r[k + 1].monitor == if r[k].count <= 0 then Update else Sleep
    ensures r[k].monitor == Update ==> r[k + 1].monitor == Sleep
    ensures r[k].monitor == Sleep ==> r[k + 1].monitor == Test
  {
    assert Step(r[k + 1 - 1], r[k + 1]);
  }

  /** The history counts what was done: a freeze for every caller whose freeze is
      over, and an update for every time the monitor came out of one. */
  lemma {:induction false} HistoryCounts(r: seq<State>)
    requires Run(r)
    ensures var s := r[|r| - 1]; s.freezes == FrozenCallers(s.callers) && s.updates == Updates(r)
  {
    hide Init, Step, FrozenCallers;
    if |r| == 1 {
      NobodyFrozen(r[0]);
    } else {
      var s, s' := r[|r| - 2], r[|r| - 1];
      assert Step(s, s');
      HistoryCounts(r[..|r| - 1]);
      StepCounts(s, s');
    }
  }

  lemma StepCounts(s: State, s': State)
    requires Step(s, s')
    ensures s'.freezes - s.freezes == FrozenCallers(s'.callers) - FrozenCallers(s.callers)
    ensures s'.updates - s.updates == if s.monitor == Update && s'.monitor != Update then 1 else 0
  {
    if s' != Watch(s) {
      var c :| 0 <= c < |s.callers| && s' == Call(s, c);
      FrozenUpdate(s.callers, c, s'.callers[c]);
      assert s'.callers == s.callers[c := s'.callers[c]];
    }
  }

  // ----- the calls one at a time

  class Counter {
    var count: int

    constructor ()
      ensures count == 0
    {
      count := 0;
    }

    method Freeze()
      modifies this
      ensures count == old(count) + 1
    {
      count := count + 1;
    }

    method Unfreeze()
      modifies this
      ensures count == if old(count) >= 1 then old(count) - 1 else old(count)
    {
      count := count - 1;
      if count < 0 { count := count + 1; }
    }
  }

  // Freezes not yet undone, surplus unfreezes ignored; true is a freeze.
  function Balance(calls: seq<bool>): nat {
    if calls == [] then 0
    else
      var n := Balance(calls[..|calls| - 1]);
      if calls[|calls| - 1] then n + 1 else if n > 0 then n - 1 else 0
  }

  /** Called one after the other, the counter is always the number of freezes not
      yet undone. */
  method CallInTurn(calls: seq<bool>) returns (count: int)
    ensures count == Balance(calls)
  {
    var c := new Counter();
    for i := 0 to |calls|
      invariant c.count == Balance(calls[..i])
    {
      assert calls[..i + 1][..i] == calls[..i];
      if calls[i] { c.Freeze(); } else { c.Unfreeze(); }
    }
    assert calls[..|calls|] == calls;
    count := c.count;
  }
}
