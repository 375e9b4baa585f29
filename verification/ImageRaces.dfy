/**
  Four interleavings of the binary image cache, step by step: a registration and an
  adder that both report an image, and a stop that frees the node which a lock-free
  iteration, an adder or a removal is about to hand to a callback.
 */
module ImageRaces {
  import opened Sums
  import opened Wrappers
  import opened ImageProtocol
  import opened ImageOwnership
  import opened ImageReaders
  import opened ImageScan
  import opened ImageRegistration

  lemma Go(r: seq<State>, t: nat) returns (r': seq<State>)
    requires Run(r) && t < |Now(r).threads| && After(Now(r), t, true).Some?
    ensures Run(r') && r'[0] == r[0] && Some(Now(r')) == After(Now(r), t, true)
  {
    hide Init, After;
    r' := r + [After(Now(r), t, true).value];
    assert StepOf(Now(r), Now(r'), t, true);
    forall i | 0 < i < |r'| ensures Step(r'[i - 1], r'[i]) {
      if i < |r| { assert Step(r[i - 1], r[i]); }
    }
  }

  function Fresh(ts: seq<Thread>): State {
    State([Node(0, false, Null)], Null, None, false, ts, [], [], multiset{}, multiset{})
  }

  // The cache with one image listed and nobody in the critical region.
  function OneImage(a: nat, available: bool, callback: bool, ts: seq<Thread>, reports: multiset<nat>): State {
    State([Node(0, false, To(1)), Node(a, available, Null)], To(1), None, callback, ts, [1], [], multiset{}, reports)
  }

  // Thread 0 starts the cache.
  lemma Started(ts: seq<Thread>) returns (r: seq<State>)
    requires |ts| > 0 && ts[0] == Starter(Open)
    requires forall t :: 0 <= t < |ts| ==> Initial(ts[t])
    ensures Run(r) && r[0] == Fresh(ts)
    ensures Now(r) == Fresh(ts).(tail := To(0), threads := ts[0 := Starter(Start.Started)])
  {
    r := [Fresh(ts)];
    r := Go(r, 0);
    r := Go(r, 0);
    r := Go(r, 0);
    r := Go(r, 0);
    r := Go(r, 0);
  }

  // Thread 1 looks an image up and allocates its node.
  lemma Built(r: seq<State>, a: nat, ts: seq<Thread>) returns (r': seq<State>)
    requires |ts| > 1 && ts[1] == Adder(Enter(a))
    requires Run(r) && Now(r) == Fresh(ts).(tail := To(0))
    ensures Run(r') && r'[0] == r[0]
    ensures Now(r') == Fresh(ts).(tail := To(0), threads := ts[1 := Adder(Own(1))],
                                  mem := [Node(0, false, Null), Node(a, true, Null)])
  {
    r' := Go(r, 1);
    r' := Go(r', 1);
    r' := Go(r', 1);
    r' := Go(r', 1);
    assert [Node(0, false, Null)] + [Node(a, true, Null)] == [Node(0, false, Null), Node(a, true, Null)];
  }

  // It takes the mutex again and finds the cache started.
  lemma Rechecked(r: seq<State>, a: nat, ts: seq<Thread>) returns (r': seq<State>)
    requires |ts| > 1 && ts[1] == Adder(Own(1))
    requires Run(r) && Now(r) == Fresh(ts).(tail := To(0), mem := [Node(0, false, Null), Node(a, true, Null)])
    ensures Run(r') && r'[0] == r[0]
    ensures Now(r') == Now(r).(owner := Some(1), threads := ts[1 := Adder(Link(1))])
  {
    r' := Go(r, 1);
    r' := Go(r', 1);
  }

  // It lists the node and releases the mutex.
  lemma Appended(r: seq<State>, a: nat, ts: seq<Thread>) returns (r': seq<State>)
    requires |ts| > 1 && ts[1] == Adder(Link(1))
    requires Run(r)
    requires Now(r) == Fresh(ts).(tail := To(0), mem := [Node(0, false, Null), Node(a, true, Null)], owner := Some(1))
    ensures Run(r') && r'[0] == r[0]
    ensures Now(r') == OneImage(a, true, false, ts[1 := Adder(Notify(1))], multiset{})
  {
    r' := Go(r, 1);
    r' := Go(r', 1);
    r' := Go(r', 1);
  }

  // An image is listed, its adder about to look for the callback.
  lemma Listed(ts: seq<Thread>, a: nat) returns (r: seq<State>)
    requires |ts| > 1 && ts[0] == Starter(Open) && ts[1] == Adder(Enter(a))
    requires forall t :: 0 <= t < |ts| ==> Initial(ts[t])
    ensures Run(r) && r[0] == Fresh(ts)
    ensures Now(r) == OneImage(a, true, false, ts[0 := Starter(Start.Started)][1 := Adder(Notify(1))], multiset{})
  {
    r := Started(ts);
    r := Built(r, a, ts[0 := Starter(Start.Started)]);
    r := Rechecked(r, a, ts[0 := Starter(Start.Started)][1 := Adder(Own(1))]);
    r := Appended(r, a, ts[0 := Starter(Start.Started)][1 := Adder(Link(1))]);
  }

  // ----- a double report

  // Thread 2 registers; its scan passes the root.
  lemma RegistersPastRoot(r: seq<State>, a: nat, ts: seq<Thread>) returns (r': seq<State>)
    requires |ts| > 2 && ts[2] == Registrar(Announce)
    requires Run(r) && Now(r) == OneImage(a, true, false, ts, multiset{})
    ensures Run(r') && r'[0] == r[0]
    ensures Now(r') == OneImage(a, true, true, ts[2 := Registrar(Scanning(Scan(To(1), Guard, [Seen(0, false)], 1)))],
                                multiset{}).(owner := Some(2))
  {
    assert [] + [Seen(0, false)] == [Seen(0, false)];
    r' := Go(r, 2);
    r' := Go(r', 2);
    r' := Go(r', 2);
    r' := Go(r', 2);
    r' := Go(r', 2);
  }

  // It finds the image available, reports it and ends.
  lemma RegistersImage(r: seq<State>, a: nat, ts: seq<Thread>) returns (r': seq<State>)
    requires |ts| > 2 && ts[2] == Registrar(Scanning(Scan(To(1), Guard, [Seen(0, false)], 1)))
    requires Run(r) && Now(r) == OneImage(a, true, true, ts, multiset{}).(owner := Some(2))
    ensures Run(r') && r'[0] == r[0]
    ensures Now(r') == OneImage(a, true, true, ts[2 := Registrar(Registered(Scan(Null, Over, [Seen(0, false), Seen(1, true)], 1)))],
                                multiset{1})
  {
    assert [Seen(0, false)] + [Seen(1, true)] == [Seen(0, false), Seen(1, true)];
    r' := Go(r, 2);
    r' := Go(r', 2);
    r' := Go(r', 2);
    r' := Go(r', 2);
    r' := Go(r', 2);
    r' := Go(r', 2);
  }

  /** A double report is real, whatever the address: a whole registration between an
      adder's append and its look at the callback. */
  lemma CanReportTwice(a: nat) returns (r: seq<State>)
    ensures Run(r) && NoStop(r[0]) && |r[0].threads| == 3 && OneRegistrar(r[0], 2)
    ensures |Now(r).threads| == 3 && Now(r).threads[1] == Adder(Finished(1, true))
    ensures Now(r).threads[2].Registrar? && Now(r).threads[2].register.Registered?
    ensures |Now(r).mem| == 2 && Now(r).mem[1].addr == a && Now(r).reports[1] == 2
  {
    var ts := [Starter(Open), Adder(Enter(a)), Registrar(Announce)];
    r := Listed(ts, a);
    var us := ts[0 := Starter(Start.Started)][1 := Adder(Notify(1))];
    r := RegistersPastRoot(r, a, us);
    r := RegistersImage(r, a, us[2 := Registrar(Scanning(Scan(To(1), Guard, [Seen(0, false)], 1)))]);
    r := Go(r, 1);
    r := Go(r, 1);
  }

  // ----- a thread left behind

  // Thread 2 iterates and has found the image available.
  lemma IteratesToImage(r: seq<State>, a: nat, ts: seq<Thread>) returns (r': seq<State>)
    requires |ts| > 2 && ts[2] == Idle
    requires Run(r) && Now(r) == OneImage(a, true, false, ts, multiset{})
    ensures Run(r') && r'[0] == r[0]
    ensures Now(r') == OneImage(a, true, false, ts[2 := Iterator(Scan(To(1), Deliver, [Seen(0, false)], 1))], multiset{})
  {
    assert [] + [Seen(0, false)] == [Seen(0, false)];
    r' := Go(r, 2);
    r' := Go(r', 2);
    r' := Go(r', 2);
    r' := Go(r', 2);
    r' := Go(r', 2);
    r' := Go(r', 2);
  }

  // Thread 3 stops the cache and has freed the image's node.
  lemma StopsToImage(r: seq<State>, a: nat, available: bool, ts: seq<Thread>) returns (r': seq<State>)
    requires |ts| > 3 && ts[3] == Stopper(Close)
    requires Run(r) && Now(r) == OneImage(a, available, false, ts, multiset{})
    ensures Run(r') && r'[0] == r[0]
    ensures Now(r').threads == ts[3 := Stopper(Free(Null))] && Now(r').freed == multiset{1} && !Now(r').callback
  {
    r' := Go(r, 3);
    r' := Go(r', 3);
    r' := Go(r', 3);
    r' := Go(r', 3);
    r' := Go(r', 3);
  }

  // Thread 2 finds the image, marks it and finds a callback to call.
  lemma RemovesImage(r: seq<State>, a: nat, ts: seq<Thread>) returns (r': seq<State>)
    requires a != 0 && |ts| > 2 && ts[2] == Remover(Compare(a, To(0), []))
    requires Run(r) && Now(r) == OneImage(a, true, false, ts, multiset{})
    ensures Run(r') && r'[0] == r[0]
    ensures Now(r') == OneImage(a, false, false, ts[2 := Remover(Hand(1))], multiset{})
  {
    assert [] + [0] == [0];
    r' := Go(r, 2);
    r' := Go(r', 2);
    r' := Go(r', 2);
    r' := Go(r', 2);
    r' := Go(r', 2);
  }

  // Thread t of the run is about to look into node 1, which a stop has freed.
  ghost predicate LeftBehind(r: seq<State>, t: nat) {
    && |r| > 0 && t < |Now(r).threads|
    && LooksInto(Now(r).threads[t]) == To(1) && Now(r).freed[1] == 1 && Reclaimed(r, 1)
    && After(Now(r), t, false) == None && !Waiting(Now(r), Now(r).threads[t])
  }

  /** The guard against a stopped cache does not save an iteration that is already
      past it: a stop can free the very node that it has just found available and is
      about to call back on. */
  lemma ReaderCanBeLeftBehind(a: nat) returns (r: seq<State>)
    ensures Run(r) && LeftBehind(r, 2) && At(Now(r).threads[2], Deliver, 1) && Now(r).threads[2].Iterator?
  {
    var ts := [Starter(Open), Adder(Enter(a)), Idle, Stopper(Close)];
    r := Listed(ts, a);
    var us := ts[0 := Starter(Start.Started)][1 := Adder(Notify(1))];
    r := IteratesToImage(r, a, us);
    r := StopsToImage(r, a, true, us[2 := Iterator(Scan(To(1), Deliver, [Seen(0, false)], 1))]);
    Behind(r, 2);
  }

  // With a callback registered by thread 2, adder 1 is about to call it.
  lemma AboutToTell(r: seq<State>) returns (r': seq<State>)
    requires Run(r) && |Now(r).threads| == 4
    requires Now(r).threads[1] == Adder(Notify(1)) && Now(r).threads[2] == Registrar(Announce)
    ensures Run(r') && |Now(r').threads| == 4
    ensures Now(r').threads[1] == Adder(Tell(1)) && Now(r').callback && Now(r').freed == Now(r).freed
  {
    r' := Go(r, 2);
    r' := Go(r', 1);
  }

  // Nothing but a stop can have freed the node.
  lemma Behind(r: seq<State>, t: nat)
    requires Run(r) && t < |Now(r).threads| && LooksInto(Now(r).threads[t]) == To(1) && Now(r).freed[1] == 1
    ensures LeftBehind(r, t)
  {
    NoThreadIsStuck(r, t, false);
    ReaderSteps(Now(r), t, false);
    hide Run, Reclaimed, Waiting, After;
  }

  /** Nor does the second check save an adder that has released the mutex: a stop can
      free its node before it hands it to the callback. */
  lemma AdderCanBeLeftBehind(a: nat) returns (r: seq<State>)
    ensures Run(r) && LeftBehind(r, 1) && Now(r).threads[1] == Adder(Tell(1)) && Now(r).callback
  {
    var ts := [Starter(Open), Adder(Enter(a)), Registrar(Announce), Stopper(Close)];
    r := Listed(ts, a);
    r := StopsToImage(r, a, true, ts[0 := Starter(Start.Started)][1 := Adder(Notify(1))]);
    r := AboutToTell(r);
    Behind(r, 1);
  }

  /** The same between a removal's mark and its callback. */
  lemma RemoverCanBeLeftBehind(a: nat) returns (r: seq<State>)
    requires a != 0
    ensures Run(r) && LeftBehind(r, 2) && Now(r).threads[2] == Remover(Hand(1))
  {
    var ts := [Starter(Open), Adder(Enter(a)), Remover(Compare(a, To(0), [])), Stopper(Close)];
    r := Listed(ts, a);
    var us := ts[0 := Starter(Start.Started)][1 := Adder(Notify(1))];
    r := RemovesImage(r, a, us);
    r := StopsToImage(r, a, false, us[2 := Remover(Hand(1))]);
    Behind(r, 2);
  }
}
