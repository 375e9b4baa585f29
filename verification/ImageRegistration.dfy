/**
  Registering for added images misses nothing: the callback is published before
  the mutex is taken for the initial report, and an adder appends under the mutex
  before it reads the callback.
 */
module ImageRegistration {
  import opened Sums
  import opened Wrappers
  import opened ImageProtocol
  import opened ImageOwnership
  import opened ImageReaders
  import opened ImageScan

  // The node an adder has put in the list.
  function Published(th: Thread): multiset<nat> {
    if th.Adder? && (th.add.Move? || th.add.Exit? || th.add.Notify? || th.add.Tell? || th.add.Finished?)
    then multiset{th.add.node} else multiset{}
  }

  // The nodes a thread has passed to the callback.
  function Told(th: Thread): multiset<nat> {
    match th
    case Adder(a) => if a.Finished? && a.told then multiset{a.node} else multiset{}
    case Registrar(r) => multiset(Called(Found(th)))
    case _ => multiset{}
  }

  // Thread q is the only registrar.
  ghost predicate OneRegistrar(s: State, q: nat) {
    forall t :: 0 <= t < |s.threads| ==> (s.threads[t].Registrar? <==> t == q)
  }

  ghost predicate Accounts(s: State) {
    Sum(Published, s.threads) == multiset(s.appended) && Sum(Told, s.threads) == s.reports
  }

  // An adder that found no callback had its node listed before the scan began.
  ghost predicate NoneMissed(s: State, q: nat)
    requires q < |s.threads|
  {
    && (s.callback <==> s.threads[q] != Registrar(Announce))
    && (s.threads[q].Registrar? && (s.threads[q].register.Scanning? || s.threads[q].register.Registered?) ==>
          s.threads[q].register.scan.floor <= |s.appended| &&
          forall t :: 0 <= t < |s.threads| ==> Early(s.threads[t], s.appended[..s.threads[q].register.scan.floor]))
  }

  predicate Early(th: Thread, listed: seq<nat>) {
    th.Adder? && th.add.Finished? && !th.add.told ==> th.add.node in listed
  }

  // ----- the accounts balance

  // What a step does to the list and to the reports.
  datatype Post = Nothing | Lists(n: nat) | Tells(n: nat)

  ghost predicate Posts(s: State, s': State, t: nat, post: Post)
    requires t < |s.threads| == |s'.threads|
  {
    var th, th' := s.threads[t], s'.threads[t];
    match post
    case Nothing =>
      Published(th') == Published(th) && s'.appended == s.appended && Told(th') == Told(th) && s'.reports == s.reports
    case Lists(n) =>
      Published(th) == multiset{} && Published(th') == multiset{n} && s'.appended == s.appended + [n] &&
      Told(th') == Told(th) && s'.reports == s.reports
    case Tells(n) =>
      Published(th') == Published(th) && s'.appended == s.appended &&
      Told(th') == Told(th) + multiset{n} && s'.reports == s.reports + multiset{n}
  }

  lemma PostsKeepAccounts(s: State, s': State, t: nat, post: Post)
    requires t < |s.threads| == |s'.threads| && s'.threads == s.threads[t := s'.threads[t]]
    requires Accounts(s) && Posts(s, s', t, post)
    ensures Accounts(s')
  {
    hide Told, Published;
    SumChange(Published, s.threads, t, s'.threads[t]);
    SumChange(Told, s.threads, t, s'.threads[t]);
    SumUpdate(Told, s.threads, t, s'.threads[t]);
    if post.Tells? {
      Cancel(Sum(Told, s'.threads), Told(s.threads[t]), Sum(Told, s.threads), multiset{post.n});
    }
  }

  lemma Cancel(x: multiset<nat>, base: multiset<nat>, y: multiset<nat>, more: multiset<nat>)
    requires x + base == y + (base + more)
    ensures x == y + more
  {
    forall n: nat ensures x[n] == (y + more)[n] {
      assert (x + base)[n] == (y + (base + more))[n];
    }
  }

  lemma AddPosts(s: State, t: nat, pc: Add, found: bool) returns (post: Post)
    requires t < |s.threads| && s.threads[t] == Adder(pc) && AddStep(s, t, pc, found).Some?
    ensures Posts(s, AddStep(s, t, pc, found).value, t, post)
  {
    hide AddStep, Posts;
    if pc.Link? {
      post := Lists(pc.node);
      LinkPosts(s, t, pc.node, found);
    } else if pc.Tell? {
      post := Tells(pc.node);
      TellPosts(s, t, pc.node, found);
    } else {
      post := Nothing;
      AddPostsNothing(s, t, pc, found);
    }
  }

  lemma LinkPosts(s: State, t: nat, n: nat, found: bool)
    requires t < |s.threads| && s.threads[t] == Adder(Link(n)) && AddStep(s, t, Link(n), found).Some?
    ensures Posts(s, AddStep(s, t, Link(n), found).value, t, Lists(n))
  {}

  lemma TellPosts(s: State, t: nat, n: nat, found: bool)
    requires t < |s.threads| && s.threads[t] == Adder(Tell(n)) && AddStep(s, t, Tell(n), found).Some?
    ensures Posts(s, AddStep(s, t, Tell(n), found).value, t, Tells(n))
  {
    assert multiset{} + multiset{n} == multiset{n};
  }

  lemma AddPostsNothing(s: State, t: nat, pc: Add, found: bool)
    requires t < |s.threads| && s.threads[t] == Adder(pc) && AddStep(s, t, pc, found).Some?
    requires !pc.Link? && !pc.Tell?
    ensures Posts(s, AddStep(s, t, pc, found).value, t, Nothing)
  {
    hide AddStep, Told, Published;
    AddPublishesNothing(s, t, pc, found);
    AddTellsNothing(s, t, pc, found);
  }

  lemma AddPublishesNothing(s: State, t: nat, pc: Add, found: bool)
    requires t < |s.threads| && s.threads[t] == Adder(pc) && AddStep(s, t, pc, found).Some?
    requires !pc.Link? && !pc.Tell?
    ensures var s' := AddStep(s, t, pc, found).value;
            |s'.threads| == |s.threads| && s'.appended == s.appended && s'.reports == s.reports &&
            Published(s'.threads[t]) == Published(s.threads[t])
  {
    AddHistory(s, t, pc, found);
    hide AddStep;
    AddGoes(s, t, pc, found);
  }

  lemma AddHistory(s: State, t: nat, pc: Add, found: bool)
    requires t < |s.threads| && AddStep(s, t, pc, found).Some? && !pc.Link? && !pc.Tell?
    ensures var s' := AddStep(s, t, pc, found).value; s'.appended == s.appended && s'.reports == s.reports
  {
    match pc
    case Enter(_) => case Check(_) => case Leave(_) => case Build(_) => case Own(_) => case Recheck(_) =>
    case Drop(_) => case Move(_) => case Exit(_) => case Notify(_) => case Quit =>
  }

  lemma AddTellsNothing(s: State, t: nat, pc: Add, found: bool)
    requires t < |s.threads| && s.threads[t] == Adder(pc) && AddStep(s, t, pc, found).Some?
    requires !pc.Link? && !pc.Tell?
    ensures var s' := AddStep(s, t, pc, found).value;
            |s'.threads| == |s.threads| && Told(s'.threads[t]) == Told(s.threads[t])
  {
    hide Called, AddStep;
    AddGoes(s, t, pc, found);
  }

  lemma RegisterPosts(s: State, t: nat, pc: Register) returns (post: Post)
    requires t < |s.threads| && s.threads[t] == Registrar(pc) && RegisterStep(s, t, pc).Some?
    ensures Posts(s, RegisterStep(s, t, pc).value, t, post)
  {
    hide RegisterStep, Posts;
    if pc.Scanning? && pc.scan.phase == Deliver {
      post := DeliverPosts(s, t, pc.scan);
    } else {
      post := Nothing;
      RegisterPostsNothing(s, t, pc);
    }
  }

  lemma DeliverPosts(s: State, t: nat, c: Scan) returns (post: Post)
    requires t < |s.threads| && s.threads[t] == Registrar(Scanning(c)) && c.phase == Deliver
    requires RegisterStep(s, t, Scanning(c)).Some?
    ensures Posts(s, RegisterStep(s, t, Scanning(c)).value, t, post)
  {
    hide Called, RegisterStep, Found;
    DeliverFinds(s, t, c);
    CalledOneMore(Found(s.threads[t]), Seen(c.cur.id, true));
    post := Tells(c.cur.id);
  }

  lemma DeliverFinds(s: State, t: nat, c: Scan)
    requires t < |s.threads| && RegisterStep(s, t, Scanning(c)).Some? && c.phase == Deliver
    ensures var s' := RegisterStep(s, t, Scanning(c)).value;
            && c.cur.To? && |s'.threads| == |s.threads| && s'.threads[t].Registrar?
            && Found(s'.threads[t]) == Found(Registrar(Scanning(c))) + [Seen(c.cur.id, true)]
            && s'.appended == s.appended && s'.reports == s.reports + multiset{c.cur.id}
  {}

  lemma RegisterPostsNothing(s: State, t: nat, pc: Register)
    requires t < |s.threads| && s.threads[t] == Registrar(pc) && RegisterStep(s, t, pc).Some?
    requires !(pc.Scanning? && pc.scan.phase == Deliver)
    ensures Posts(s, RegisterStep(s, t, pc).value, t, Nothing)
  {
    hide Called, RegisterStep, Found;
    RegisterFinds(s, t, pc);
  }

  // Away from the delivery a registration's step adds nothing it called back on.
  lemma RegisterFinds(s: State, t: nat, pc: Register)
    requires t < |s.threads| && s.threads[t] == Registrar(pc) && RegisterStep(s, t, pc).Some?
    requires !(pc.Scanning? && pc.scan.phase == Deliver)
    ensures var s' := RegisterStep(s, t, pc).value;
            && |s'.threads| == |s.threads| && s'.threads[t].Registrar?
            && multiset(Called(Found(s'.threads[t]))) == multiset(Called(Found(Registrar(pc))))
            && s'.appended == s.appended && s'.reports == s.reports
  {
    hide Called;
    assert s.reports + multiset{} == s.reports;
    match pc
    case Announce =>
    case Await =>
    case Scanning(c) =>
      match c.phase
      case Guard =>
      case Test => CalledOneMore(c.seen, Seen(c.cur.id, false));
      case Advance =>
      case Over =>
  }

  lemma NoneCalled()
    ensures Called([]) == []
  {}

  lemma CalledOneMore(seen: seq<Seen>, last: Seen)
    ensures multiset(Called(seen + [last])) ==
            if last.available then multiset(Called(seen)) + multiset{last.node} else multiset(Called(seen))
  {
    assert (seen + [last])[..|seen|] == seen;
    assert Called(seen) + [] == Called(seen);
  }

  lemma OtherPosts(s: State, s': State, t: nat, found: bool)
    requires t < |s.threads| == |s'.threads| && StepOf(s, s', t, found) && NoStop(s)
    requires !s.threads[t].Adder? && !s.threads[t].Registrar?
    ensures Posts(s, s', t, Nothing)
  {
    hide AddStep, RegisterStep, StopStep, StartStep, RemoveStep;
    match s.threads[t]
    case Remover(pc) => RemovePosts(s, t, pc, found);
    case Starter(pc) => StartPosts(s, t, pc);
    case _ =>
  }

  lemma RemovePosts(s: State, t: nat, pc: Remove, found: bool)
    requires t < |s.threads| && s.threads[t] == Remover(pc) && RemoveStep(s, t, pc, found).Some?
    ensures Posts(s, RemoveStep(s, t, pc, found).value, t, Nothing)
  {}

  lemma StartPosts(s: State, t: nat, pc: Start)
    requires t < |s.threads| && s.threads[t] == Starter(pc) && StartStep(s, t, pc).Some?
    ensures Posts(s, StartStep(s, t, pc).value, t, Nothing)
  {}

  lemma StepAccounts(s: State, s': State, t: nat, found: bool)
    requires t < |s.threads| && StepOf(s, s', t, found) && NoStop(s) && Accounts(s)
    requires Inv(s)
    ensures Accounts(s')
  {
    hide Inv, NoStop, AddStep, RemoveStep, RegisterStep, StartStep, StopStep, Posts, Accounts;
    StepGrows(s, s', t, found);
    var post := Nothing;
    match s.threads[t] {
      case Adder(pc) => post := AddPosts(s, t, pc, found);
      case Registrar(pc) => post := RegisterPosts(s, t, pc);
      case _ => OtherPosts(s, s', t, found);
    }
    PostsKeepAccounts(s, s', t, post);
  }

  // ----- the registrar's floor

  lemma Finishing(s: State, s': State, t: nat, found: bool)
    requires t < |s.threads| == |s'.threads| && StepOf(s, s', t, found)
    ensures s'.callback == (s.callback || s.threads[t] == Registrar(Announce))
    ensures s'.threads[t].Registrar? <==> s.threads[t].Registrar?
    ensures s'.threads[t] != Registrar(Announce)
    ensures s'.threads[t].Adder? <==> s.threads[t].Adder?
    ensures s'.threads[t].Adder? && s'.threads[t].add.Finished? && !s'.threads[t].add.told ==> !s.callback
  {
    hide AddStep, RegisterStep, StopStep, StartStep, RemoveStep;
    match s.threads[t]
    case Adder(pc) => AddCallback(s, t, pc, found);
    case Registrar(pc) => RegisterCallback(s, t, pc);
    case Starter(pc) => StartCallback(s, t, pc);
    case Stopper(pc) => StopCallback(s, t, pc);
    case Remover(pc) => RemoveCallback(s, t, pc, found);
    case _ =>
  }

  lemma AddCallback(s: State, t: nat, pc: Add, found: bool)
    requires t < |s.threads| && AddStep(s, t, pc, found).Some?
    ensures var s' := AddStep(s, t, pc, found).value;
            && s'.callback == s.callback && s'.threads[t].Adder?
            && (s'.threads[t].add.Finished? && !s'.threads[t].add.told ==> !s.callback)
  {}

  lemma RegisterCallback(s: State, t: nat, pc: Register)
    requires t < |s.threads| && RegisterStep(s, t, pc).Some?
    ensures var s' := RegisterStep(s, t, pc).value;
            s'.callback == (s.callback || pc == Announce) && s'.threads[t].Registrar? &&
            s'.threads[t].register != Announce
  {}

  lemma StartCallback(s: State, t: nat, pc: Start)
    requires t < |s.threads| && StartStep(s, t, pc).Some?
    ensures var s' := StartStep(s, t, pc).value; s'.callback == s.callback && s'.threads[t].Starter?
  {}

  lemma StopCallback(s: State, t: nat, pc: Stop)
    requires t < |s.threads| && StopStep(s, t, pc).Some?
    ensures var s' := StopStep(s, t, pc).value; s'.callback == s.callback && s'.threads[t].Stopper?
  {}

  lemma RemoveCallback(s: State, t: nat, pc: Remove, found: bool)
    requires t < |s.threads| && RemoveStep(s, t, pc, found).Some?
    ensures var s' := RemoveStep(s, t, pc, found).value; s'.callback == s.callback && s'.threads[t].Remover?
  {}

  lemma StepNoneMissed(s: State, s': State, t: nat, found: bool, q: nat)
    requires t < |s.threads| && StepOf(s, s', t, found) && NoStop(s) && q < |s.threads|
    requires OneRegistrar(s, q) && NoneMissed(s, q) && Accounts(s) && Tracks(s, s.threads[q]) && Inv(s)
    ensures |s'.threads| == |s.threads| && OneRegistrar(s', q) && NoneMissed(s', q)
  {
    hide Inv, NoStop, After, Tracks, Accounts;
    StepGrows(s, s', t, found);
    Finishing(s, s', t, found);
    if t == q {
      RegistrarMoves(s, s', q, found);
    } else {
      assert s'.threads[q] == s.threads[q];
      if s.threads[q].Registrar? && (s.threads[q].register.Scanning? || s.threads[q].register.Registered?) {
        var f := s.threads[q].register.scan.floor;
        assert s'.appended[..f] == s.appended[..f];
      }
    }
  }

  lemma RegistrarMoves(s: State, s': State, q: nat, found: bool)
    requires q < |s.threads| == |s'.threads| && StepOf(s, s', q, found)
    requires s'.threads == s.threads[q := s'.threads[q]] && s.appended <= s'.appended
    requires OneRegistrar(s, q) && NoneMissed(s, q) && Accounts(s)
    requires s'.callback == (s.callback || s.threads[q] == Registrar(Announce))
    requires s'.threads[q].Registrar? && s'.threads[q] != Registrar(Announce)
    ensures NoneMissed(s', q)
  {
    hide Accounts;
    var pc := s.threads[q].register;
    if pc == Await {
      assert s'.appended[..|s.appended|] == s.appended;
      forall t | 0 <= t < |s'.threads| ensures Early(s'.threads[t], s.appended) {
        if t != q && s.threads[t].Adder? && s.threads[t].add.Finished? { FinishedIsListed(s, t); }
      }
    } else if pc.Scanning? {
      var f := pc.scan.floor;
      assert s'.appended[..f] == s.appended[..f];
      forall t | 0 <= t < |s'.threads| ensures Early(s'.threads[t], s.appended[..f]) {
        if t != q { assert Early(s.threads[t], s.appended[..f]); }
      }
    }
  }

  lemma FinishedIsListed(s: State, t: nat)
    requires Accounts(s) && t < |s.threads| && s.threads[t].Adder? && s.threads[t].add.Finished?
    ensures s.threads[t].add.node in s.appended
  {
    SumAt(Published, s.threads, t, s.threads[t].add.node);
  }

  // ----- whole runs

  lemma InitAccounts(s: State, q: nat)
    requires Init(s) && q < |s.threads| && OneRegistrar(s, q)
    ensures Accounts(s) && NoneMissed(s, q)
  {
    SumEmpty(Published, s.threads);
    SumEmpty(Told, s.threads);
  }

  ghost predicate Sound(s: State, q: nat) {
    q < |s.threads| && OneRegistrar(s, q) && Accounts(s) && NoneMissed(s, q)
  }

  lemma {:induction false} RunSound(r: seq<State>, q: nat)
    requires Run(r) && NoStop(r[0]) && q < |r[0].threads| && OneRegistrar(r[0], q)
    ensures forall i :: 0 <= i < |r| ==> Sound(r[i], q)
  {
    hide Inv, NoStop, AllTrack, After, Init, OneRegistrar, Accounts, NoneMissed;
    if |r| == 1 {
      InitAccounts(r[0], q);
    } else {
      var p := r[..|r| - 1];
      RunSound(p, q);
      RunTracks(p);
      RunInv(p);
      var s, s' := r[|r| - 2], r[|r| - 1];
      assert p[|r| - 2] == s && Step(s, s');
      var t: nat, found: bool :| StepOf(s, s', t, found);
      TrackOf(s, q);
      StepNoneMissed(s, s', t, found, q);
      StepAccounts(s, s', t, found);
    }
  }

  lemma {:induction false} CalledAtMost(seen: seq<Seen>, n: nat)
    ensures multiset(Called(seen))[n] <= multiset(Visited(seen))[n]
  {
    if seen != [] {
      var p := seen[..|seen| - 1];
      CalledAtMost(p, n);
      assert Visited(seen) == Visited(p) + [seen[|seen| - 1].node];
    }
  }

  lemma ScanTellsOnce(s: State, c: Scan, n: nat)
    requires OnTrack(s, c) && Distinct(List(s))
    ensures multiset(Called(c.seen))[n] <= 1
  {
    hide Called;
    CalledAtMost(c.seen, n);
    CountDistinct(Visited(c.seen), n);
  }

  // ----- how often, exactly

  // Some adder passed node n to the callback.
  ghost predicate Notified(s: State, n: nat) {
    exists t: nat :: t < |s.threads| && s.threads[t] == Adder(Finished(n, true))
  }

  // Some adder has yet to pass node n to the callback it found.
  ghost predicate Pending(s: State, n: nat) {
    exists t: nat :: t < |s.threads| && s.threads[t] == Adder(Tell(n))
  }

  // In this step an adder that has listed node n finds the callback set.
  ghost predicate Notifies(s: State, s': State, n: nat) {
    s.callback && exists t: nat :: t < |s.threads| && s.threads[t] == Adder(Notify(n)) && StepOf(s, s', t, false)
  }

  // An adder of node n has found the callback set.
  predicate Saw(th: Thread, n: nat) { th == Adder(Tell(n)) || th == Adder(Finished(n, true)) }

  ghost predicate AnySaw(s: State, n: nat) {
    exists t: nat :: t < |s.threads| && Saw(s.threads[t], n)
  }

  lemma StepNotifies(s: State, s': State, u: nat, found: bool, n: nat)
    requires StepOf(s, s', u, found)
    ensures AnySaw(s', n) <==> AnySaw(s, n) || Notifies(s, s', n)
  {
    hide StepOf;
    StepFrame(s, s', u, found);
    StepIsOfThread(s, s', u, found);
    AdderSees(s, s', u, found, n);
    if t: nat :| t < |s.threads| && Saw(s.threads[t], n) {
      assert Saw(s'.threads[t], n);
    }
    if Notifies(s, s', n) {
      var t: nat :| t < |s.threads| && s.threads[t] == Adder(Notify(n)) && StepOf(s, s', t, false);
      AdderSees(s, s', t, false, n);
      assert Saw(s'.threads[t], n);
    }
    if t: nat :| t < |s'.threads| && Saw(s'.threads[t], n) {
      if t == u {
        assert Saw(s.threads[u], n) || Notifies(s, s', n);
      } else {
        assert Saw(s.threads[t], n);
      }
    }
  }

  // The moving thread comes to have seen the callback by looking for it.
  lemma AdderSees(s: State, s': State, u: nat, found: bool, n: nat)
    requires StepOf(s, s', u, found) && u < |s'.threads|
    ensures Saw(s'.threads[u], n) <==> Saw(s.threads[u], n) || (s.callback && s.threads[u] == Adder(Notify(n)))
    ensures s.threads[u] == Adder(Notify(n)) ==> StepOf(s, s', u, false)
  {
    hide AddStep, RemoveStep, RegisterStep, StartStep, StopStep;
    StepFrame(s, s', u, found);
    Finishing(s, s', u, found);
    if s.threads[u].Adder? {
      AddGoes(s, u, s.threads[u].add, found);
      NotifyIgnores(s, u, n, found);
      FinishedIsOver(s, u, found);
    }
  }

  lemma FinishedIsOver(s: State, t: nat, found: bool)
    requires t < |s.threads| && s.threads[t].Adder?
    ensures s.threads[t].add.Finished? ==> AddStep(s, t, s.threads[t].add, found) == None
  {}

  lemma NotifyIgnores(s: State, t: nat, n: nat, found: bool)
    requires t < |s.threads|
    ensures AddStep(s, t, Notify(n), found) == AddStep(s, t, Notify(n), false)
  {}

  ghost predicate EverNotifies(r: seq<State>, n: nat) {
    exists m :: 0 <= m < |r| - 1 && Notifies(r[m], r[m + 1], n)
  }

  lemma EverNotifiesStep(r: seq<State>, n: nat)
    requires |r| > 1
    ensures EverNotifies(r, n) <==> EverNotifies(r[..|r| - 1], n) || Notifies(r[|r| - 2], r[|r| - 1], n)
  {
    hide Notifies;
    var p, k := r[..|r| - 1], |r| - 2;
    if m :| 0 <= m < |p| - 1 && Notifies(p[m], p[m + 1], n) {
      InPrefix(r, m);
      InPrefix(r, m + 1);
      assert Notifies(r[m], r[m + 1], n);
    }
    if m :| 0 <= m < |r| - 1 && Notifies(r[m], r[m + 1], n) {
      if m < k {
        InPrefix(r, m);
        InPrefix(r, m + 1);
        assert Notifies(p[m], p[m + 1], n);
      }
    }
    assert Notifies(r[k], r[k + 1], n) ==> EverNotifies(r, n);
  }

  lemma {:induction false} SawWhenNotified(r: seq<State>, n: nat)
    requires Run(r)
    ensures AnySaw(Now(r), n) <==> EverNotifies(r, n)
  {
    hide Init, After, AnySaw, Notifies, EverNotifies;
    if |r| == 1 {
      NoneNotifiedYet(r, n);
    } else {
      var p := r[..|r| - 1];
      var s, s' := r[|r| - 2], r[|r| - 1];
      assert p[|r| - 2] == s && Step(s, s') && Now(p) == s;
      var u: nat, found: bool :| StepOf(s, s', u, found);
      SawWhenNotified(p, n);
      StepNotifies(s, s', u, found, n);
      EverNotifiesStep(r, n);
    }
  }

  lemma NoneNotifiedYet(r: seq<State>, n: nat)
    requires |r| == 1 && Init(r[0])
    ensures !AnySaw(r[0], n) && !EverNotifies(r, n)
  {}

  // A node has one adder: it has made its call, or has yet to, but not both.
  lemma NotifiedOrPending(s: State, n: nat)
    requires Accounts(s) && multiset(s.appended)[n] <= 1
    ensures Notified(s, n) <==> AnySaw(s, n) && !Pending(s, n)
  {
    hide Sum;
    if Notified(s, n) && Pending(s, n) {
      var t: nat :| t < |s.threads| && s.threads[t] == Adder(Finished(n, true));
      var u: nat :| u < |s.threads| && s.threads[u] == Adder(Tell(n));
      SumTwo(Published, s.threads, t, u, Idle, n);
      assert false;
    }
    if t: nat :| t < |s.threads| && Saw(s.threads[t], n) {
      assert s.threads[t] == Adder(Tell(n)) || s.threads[t] == Adder(Finished(n, true));
    }
    if t: nat :| t < |s.threads| && s.threads[t] == Adder(Finished(n, true)) {
      assert Saw(s.threads[t], n);
    }
  }

  // The adders alone: each listed node has one, which told of it or did not.
  lemma AddersTell(s: State, q: nat, n: nat)
    requires q < |s.threads| && OneRegistrar(s, q) && Accounts(s) && multiset(s.appended)[n] <= 1
    ensures Sum(Told, s.threads[q := Idle])[n] == if Notified(s, n) then 1 else 0
  {
    hide Told, Accounts, Notified;
    OthersTellLess(s, q, n);
    if n in Sum(Told, s.threads[q := Idle]) { TellerIsNotified(s, q, n); }
    if Notified(s, n) { NotifiedTells(s, q, n); }
  }

  lemma NotifiedTells(s: State, q: nat, n: nat)
    requires q < |s.threads| && OneRegistrar(s, q) && Notified(s, n)
    ensures Sum(Told, s.threads[q := Idle])[n] >= 1
  {
    hide Called, Sum;
    var others := s.threads[q := Idle];
    var t: nat :| t < |s.threads| && s.threads[t] == Adder(Finished(n, true));
    assert t != q && others[t] == s.threads[t];
    SumAt(Told, others, t, n);
  }

  lemma TellerIsNotified(s: State, q: nat, n: nat)
    requires q < |s.threads| && OneRegistrar(s, q) && n in Sum(Told, s.threads[q := Idle])
    ensures Notified(s, n)
  {
    hide Called, Sum;
    var others := s.threads[q := Idle];
    var t := SumWitness(Told, others, n);
    assert t != q && s.threads[t] == Adder(Finished(n, true));
  }

  // Without the registrar, threads report no more than they published.
  lemma OthersTellLess(s: State, q: nat, n: nat)
    requires q < |s.threads| && OneRegistrar(s, q) && Accounts(s)
    ensures Sum(Told, s.threads[q := Idle])[n] <= multiset(s.appended)[n]
  {
    var others := s.threads[q := Idle];
    SumChange(Published, s.threads, q, Idle);
    forall th | th in others ensures Told(th)[n] <= Published(th)[n] {
      var i :| 0 <= i < |others| && others[i] == th;
      assert i != q ==> !s.threads[i].Registrar?;
    }
    SumMono(Told, Published, others, n);
  }

  lemma RegistrarTells(s: State, q: nat, n: nat)
    requires q < |s.threads| && Tracks(s, s.threads[q]) && s.threads[q].Registrar? && Distinct(List(s))
    ensures Told(s.threads[q])[n] == if Seen(n, true) in Found(s.threads[q]) then 1 else 0
  {
    hide OnTrack, Called;
    var seen := Found(s.threads[q]);
    if PassOf(s.threads[q]).Some? { ScanTellsOnce(s, PassOf(s.threads[q]).value, n); } else { NoneCalled(); }
    CalledIff(seen, n);
    assert n in Called(seen) <==> multiset(Called(seen))[n] > 0;
  }

  lemma CountNow(s: State, q: nat, n: nat)
    requires Sound(s, q) && Tracks(s, s.threads[q]) && s.threads[q].Registrar?
    requires Distinct(List(s)) && Conserved(s)
    ensures s.reports[n] ==
            (if Seen(n, true) in Found(s.threads[q]) then 1 else 0) + (if Notified(s, n) then 1 else 0)
  {
    hide Tracks, Notified, Found;
    InOnePlace(s, n);
    AddersTell(s, q, n);
    RegistrarTells(s, q, n);
    SumChange(Told, s.threads, q, Idle);
    assert s.reports == Sum(Told, s.threads[q := Idle]) + Told(s.threads[q]);
  }

  /** The exact number of reports of an image, at every point of every interleaving
      with one registration and no stop: one if the initial scan found it available,
      and one more if its adder found the callback set. */
  lemma ReportsAre(r: seq<State>, q: nat, n: nat)
    requires Run(r) && NoStop(r[0]) && q < |r[0].threads| && OneRegistrar(r[0], q)
    ensures q < |Now(r).threads|
    ensures Now(r).reports[n] ==
            (if Seen(n, true) in Found(Now(r).threads[q]) then 1 else 0) + (if Notified(Now(r), n) then 1 else 0)
  {
    RunSound(r, q);
    RunTracks(r);
    RunInv(r);
    var s := Now(r);
    hide Run, NoStop, Inv, AllTrack, Tracks, Accounts, NoneMissed, Notified, Found;
    assert Sound(s, q);
    HeapNow(s);
    ListDistinct(s);
    TrackOf(s, q);
    CountNow(s, q, n);
  }

  /** So no image is reported more than twice, and one is reported twice if and only
      if it was available when the initial scan tested it, its adder, having listed it
      before, looked for the callback after it was set, and both have made the call
      they then owe. */
  lemma ReportedTwiceIff(r: seq<State>, q: nat, n: nat)
    requires Run(r) && NoStop(r[0]) && q < |r[0].threads| && OneRegistrar(r[0], q)
    ensures Now(r).reports[n] <= 2 && q < |Now(r).threads|
    ensures Now(r).reports[n] == 2 <==>
            && (exists m :: 0 <= m < |r| - 1 && Tests(r[m], r[m + 1], q, n, true))
            && !At(Now(r).threads[q], Deliver, n)
            && (exists m :: 0 <= m < |r| - 1 && Notifies(r[m], r[m + 1], n))
            && !Pending(Now(r), n)
  {
    ReportsAre(r, q, n);
    FoundWhenTested(r, q, n, true);
    SawWhenNotified(r, n);
    OneAdder(r, q, n);
    OneDelivery(r, q, n);
    hide Run, Tests, Notifies, Found, Notified, Pending, AnySaw, At;
  }

  // A pass delivers a node once.
  lemma OneDelivery(r: seq<State>, q: nat, n: nat)
    requires Run(r) && NoStop(r[0]) && q < |Now(r).threads|
    ensures At(Now(r).threads[q], Deliver, n) ==> Seen(n, true) !in Found(Now(r).threads[q])
  {
    RunTracks(r);
    RunInv(r);
    var s := Now(r);
    hide Run, NoStop, Inv, AllTrack, Conserved, Linked;
    HeapNow(s);
    ListDistinct(s);
    TrackOf(s, q);
    if At(s.threads[q], Deliver, n) { NotSeenYet(s, PassOf(s.threads[q]).value, n); }
  }

  lemma NotSeenYet(s: State, c: Scan, n: nat)
    requires OnTrack(s, c) && Distinct(List(s)) && c.phase == Deliver && c.cur == To(n)
    ensures Seen(n, true) !in c.seen
  {
    forall i | 0 <= i < |c.seen| ensures c.seen[i].node != n { assert Visited(c.seen)[i] == List(s)[i]; }
  }

  lemma OneAdder(r: seq<State>, q: nat, n: nat)
    requires Run(r) && NoStop(r[0]) && q < |r[0].threads| && OneRegistrar(r[0], q)
    ensures Notified(Now(r), n) <==> AnySaw(Now(r), n) && !Pending(Now(r), n)
  {
    RunSound(r, q);
    RunInv(r);
    var s := Now(r);
    hide Run, NoStop, Inv, Notified, Pending, AnySaw, Accounts;
    assert Sound(s, q);
    HeapNow(s);
    InOnePlace(s, n);
    NotifiedOrPending(s, n);
  }

  // Every listed node was listed by an adder that is past its append.
  lemma ListedByAdder(s: State, n: nat) returns (t: nat)
    requires Accounts(s) && n in s.appended
    ensures t < |s.threads| && n in Published(s.threads[t])
  {
    assert n in Sum(Published, s.threads);
    t := SumWitness(Published, s.threads, n);
  }

  lemma ReportOf(s: State, t: nat, n: nat)
    requires Accounts(s) && t < |s.threads| && n in Told(s.threads[t])
    ensures n in s.reports
  {
    SumAt(Told, s.threads, t, n);
  }

  lemma SeenByScan(s: State, c: Scan, n: nat)
    requires OnTrack(s, c) && c.phase == Over && n in s.appended[..c.floor]
    ensures Seen(n, true) in c.seen || Seen(n, false) in c.seen
    ensures n < |s.mem| && s.mem[n].available ==> Seen(n, true) in c.seen
  {
    var i :| 0 <= i < c.floor && s.appended[..c.floor][i] == n;
    assert List(s)[i + 1] == n;
    assert Visited(c.seen)[i + 1] == List(s)[..|c.seen|][i + 1];
    assert c.seen[i + 1].node == n;
    if c.seen[i + 1].available { assert c.seen[i + 1] == Seen(n, true); }
  }

  /** Registration misses nothing.  In every interleaving of any number of adders,
      removers and iterators with one registration and no stop, once the registration
      and the adders are through, each listed image was reported, unless it had been
      removed before the initial report passed it; one still available was reported
      in any case. */
  lemma RegistrationMissesNothing(r: seq<State>, q: nat, n: nat)
    requires Run(r) && NoStop(r[0]) && q < |r[0].threads| && OneRegistrar(r[0], q)
    requires var s := r[|r| - 1];
             && |s.threads| > q && s.threads[q].Registrar? && s.threads[q].register.Registered?
             && (forall t :: 0 <= t < |s.threads| && s.threads[t].Adder? ==> s.threads[t].add.Finished? || s.threads[t].add.Gone?)
    requires n in r[|r| - 1].appended
    ensures var s := r[|r| - 1];
            && n < |s.mem|
            && (n in s.reports || Seen(n, false) in s.threads[q].register.scan.seen)
            && (s.mem[n].available ==> n in s.reports)
  {
    hide Step, Init, NoStop, Inv, AllTrack, Tracks, Accounts, NoneMissed, OneRegistrar;
    RunSound(r, q);
    RunTracks(r);
    RunInv(r);
    var s := r[|r| - 1];
    assert Sound(s, q);
    HeapNow(s);
    ListDistinct(s);
    TrackOf(s, q);
    FinallyReported(s, q, n);
  }

  lemma FinallyReported(s: State, q: nat, n: nat)
    requires q < |s.threads| && s.threads[q].Registrar? && s.threads[q].register.Registered?
    requires forall t :: 0 <= t < |s.threads| && s.threads[t].Adder? ==> s.threads[t].add.Finished? || s.threads[t].add.Gone?
    requires Accounts(s) && NoneMissed(s, q) && Tracks(s, s.threads[q]) && n in s.appended
    ensures n in s.reports || Seen(n, false) in s.threads[q].register.scan.seen
    ensures n < |s.mem| && s.mem[n].available ==> n in s.reports
  {
    hide Accounts, OnTrack, Called;
    var c := s.threads[q].register.scan;
    var t := ListedByAdder(s, n);
    if s.threads[t].add.told {
      ReportOf(s, t, n);
    } else {
      assert Early(s.threads[t], s.appended[..c.floor]);
      SeenByScan(s, c, n);
      CalledIff(c.seen, n);
      if Seen(n, true) in c.seen { ReportOf(s, q, n); }
    }
  }
}
