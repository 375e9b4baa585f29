/**
  One sampling pass over all threads: which kernel calls it makes, in which
  order, and what it reports.  Every call goes through a kernel object that keeps
  the trace; the pass is proved to produce exactly the trace of a pure
  specification, and the protocol properties are proved of that trace.
 */
module SamplingPass {
  import opened StackWalk
  import opened ThreadMetadata

  const MAX_DEPTH: nat := 128

  datatype Event =
    | Acquire(port: nat)               // task_threads hands out a port reference
    | Release(port: nat)               // mach_port_deallocate
    | Pthread(thread: nat)             // pthread_from_mach_thread_np, which takes a lock
    | Lookup(thread: nat)              // the metadata cache, which may allocate
    | Suspend(thread: nat)             // a successful thread_suspend
    | Walk(thread: nat)
    | Resume(thread: nat)              // a successful thread_resume
    | Refuse(thread: nat)              // a thread_resume that fails
    | Report(thread: nat, idle: bool, addresses: seq<nat>)

  // What the kernel says about one listed thread during the pass.
  datatype Thread = Thread(
    port: nat, infoOk: bool, idleFlag: bool, running: bool,
    pthread: bool, answer: Answer, stackTop: nat, stackSize: nat,
    suspends: bool, resumes: bool, stateOk: bool, context: Context, memory: Memory)

  predicate IsIdle(t: Thread) { t.port == 0 || !t.infoOk || t.idleFlag || !t.running }

  // Without a pthread handle neither priority nor name can be had, and the name
  // is not asked for when the priority fails.
  function AnswerOf(t: Thread): Answer {
    if !t.pthread || t.answer.priority == -1 then Answer(-1, "") else t.answer
  }

  function BoundsOf(a: Arch, t: Thread): Bounds {
    if t.pthread then
      var start := t.stackTop % WordLimit(a);
      Bounds(start, Minus(a, start, t.stackSize))
    else Bounds(0, 0)
  }

  // ----- the walk of one suspended thread

  // What the target's stack holds without limits.
  function StackOf(a: Arch, t: Thread): seq<nat> {
    FullStack(a, t.memory, BoundsOf(a, t), t.context, t.context.fp)
  }

  // The walk reaches the end of the stack within the buffer.
  predicate Collectable(a: Arch, t: Thread) {
    && IsValid(BoundsOf(a, t)) && t.stateOk && IsValidFrame(a, BoundsOf(a, t), t.context.fp)
    && Complete(a, t.memory, BoundsOf(a, t), t.context.fp) && |StackOf(a, t)| <= MAX_DEPTH
  }

  // ----- specification of a visit and of a pass

  // The cache lookup; a miss asks for the priority, and so for the pthread.
  function MetadataCalls(es: seq<Entry>, t: Thread): seq<Event> {
    [Lookup(t.port)] + if Known(es, t.port) then [] else [Pthread(t.port)]
  }

  // The pthread is looked up again unless the priority call already found it.
  function BoundsCalls(es: seq<Entry>, t: Thread): seq<Event> {
    if Known(es, t.port) || !t.pthread then [Pthread(t.port)] else []
  }

  // The call that ends the suspension, or fails to.
  function ResumeCall(t: Thread): Event {
    if t.resumes then Resume(t.port) else Refuse(t.port)
  }

  function WalkCalls(a: Arch, t: Thread): seq<Event> {
    if !t.suspends then []
    else
      [Suspend(t.port), Walk(t.port), ResumeCall(t)] +
      if Collectable(a, t) then [Report(t.port, false, Map(a, StackOf(a, t)))] else []
  }

  function Visit(a: Arch, es: seq<Entry>, t: Thread): seq<Event> {
    if IsIdle(t) then [Report(t.port, true, [])]
    else if Looked(es, t.port, AnswerOf(t)).threadID == 0 then MetadataCalls(es, t)
    else MetadataCalls(es, t) + BoundsCalls(es, t) + WalkCalls(a, t)
  }

  function VisitCache(es: seq<Entry>, t: Thread): seq<Entry> {
    if IsIdle(t) then es else Learned(es, t.port, AnswerOf(t))
  }

  function CacheAfter(es: seq<Entry>, ts: seq<Thread>): seq<Entry> {
    if ts == [] then es else VisitCache(CacheAfter(es, ts[..|ts| - 1]), ts[|ts| - 1])
  }

  function Visits(a: Arch, es: seq<Entry>, ts: seq<Thread>): seq<Event> {
    if ts == [] then []
    else
      var p := ts[..|ts| - 1];
      Visits(a, es, p) + Visit(a, CacheAfter(es, p), ts[|ts| - 1])
  }

  function Acquires(ts: seq<Thread>): seq<Event> {
    if ts == [] then [] else Acquires(ts[..|ts| - 1]) + [Acquire(ts[|ts| - 1].port)]
  }

  // The reference to the calling thread's own port is given back at once.
  function OwnReleases(ts: seq<Thread>, current: nat): seq<Event> {
    if ts == [] then []
    else OwnReleases(ts[..|ts| - 1], current) +
         if ts[|ts| - 1].port == current then [Release(current)] else []
  }

  function Others(ts: seq<Thread>, current: nat): seq<Thread> {
    if ts == [] then []
    else Others(ts[..|ts| - 1], current) + if ts[|ts| - 1].port == current then [] else [ts[|ts| - 1]]
  }

  function Releases(ts: seq<Thread>): seq<Event> {
    if ts == [] then [] else Releases(ts[..|ts| - 1]) + [Release(ts[|ts| - 1].port)]
  }

  function Pass(a: Arch, es: seq<Entry>, ts: seq<Thread>, current: nat): seq<Event> {
    Acquires(ts) + OwnReleases(ts, current) + Visits(a, es, Others(ts, current)) + Releases(Others(ts, current))
  }

  // ----- the pass as the code runs it

  class Kernel {
    var trace: seq<Event>

    constructor ()
      ensures trace == []
    {
      trace := [];
    }

    method Log(e: Event)
      modifies this
      ensures trace == old(trace) + [e]
    {
      trace := trace + [e];
    }

    // task_threads: one reference per listed thread, or a failure and none.
    method TaskThreads(ok: bool, ts: seq<Thread>) returns (list: seq<Thread>)
      modifies this
      ensures list == if ok then ts else []
      ensures trace == old(trace) + Acquires(list)
    {
      list := [];
      if !ok { return; }
      list := ts;
      for i := 0 to |ts|
        invariant trace == old(trace) + Acquires(ts[..i])
      {
        assert ts[..i + 1][..i] == ts[..i];
        Log(Acquire(ts[i].port));
      }
      assert ts[..|ts|] == ts;
    }
  }

  class ThreadHandle {
    const thread: Thread
    const isOwnedPort: bool
    var pthreadHandle: bool      // has the pthread been found?

    constructor (t: Thread, owned: bool)
      ensures thread == t && isOwnedPort == owned && !pthreadHandle
    {
      thread, isOwnedPort, pthreadHandle := t, owned, false;
    }

    method Destroy(k: Kernel)
      modifies k
      ensures k.trace == old(k.trace) + if isOwnedPort then [Release(thread.port)] else []
    {
      if isOwnedPort { k.Log(Release(thread.port)); }
    }

    // Memoised: the system is asked until it knows the thread.
    method PthreadHandle(k: Kernel) returns (found: bool)
      modifies this, k
      ensures k.trace == old(k.trace) + if old(pthreadHandle) then [] else [Pthread(thread.port)]
      ensures pthreadHandle == found == (old(pthreadHandle) || thread.pthread)
    {
      if !pthreadHandle {
        k.Log(Pthread(thread.port));
        pthreadHandle := thread.pthread;
      }
      found := pthreadHandle;
    }

    method Priority(k: Kernel) returns (p: int)
      modifies this, k
      ensures k.trace == old(k.trace) + if old(pthreadHandle) then [] else [Pthread(thread.port)]
      ensures pthreadHandle == (old(pthreadHandle) || thread.pthread)
      ensures p == if pthreadHandle then thread.answer.priority else -1
    {
      var found := PthreadHandle(k);
      p := if found then thread.answer.priority else -1;
    }

    method Name(k: Kernel) returns (s: string)
      modifies this, k
      ensures k.trace == old(k.trace) + if old(pthreadHandle) then [] else [Pthread(thread.port)]
      ensures pthreadHandle == (old(pthreadHandle) || thread.pthread)
      ensures s == if pthreadHandle then thread.answer.name else ""
    {
      var found := PthreadHandle(k);
      s := if found then thread.answer.name else "";
    }

    method StackBounds(a: Arch, k: Kernel) returns (b: Bounds)
      requires pthreadHandle ==> thread.pthread
      modifies this, k
      ensures k.trace == old(k.trace) + if old(pthreadHandle) then [] else [Pthread(thread.port)]
      ensures b == BoundsOf(a, thread)
    {
      var found := PthreadHandle(k);
      if !found { return Bounds(0, 0); }
      var start := thread.stackTop % WordLimit(a);
      b := Bounds(start, Minus(a, start, thread.stackSize));
    }

    method Suspend(k: Kernel) returns (ok: bool)
      modifies k
      ensures ok == (thread.port != 0 && thread.suspends)
      ensures k.trace == old(k.trace) + if ok then [Event.Suspend(thread.port)] else []
    {
      ok := false;
      if thread.port == 0 { return; }
      ok := thread.suspends;
      if ok { k.Log(Event.Suspend(thread.port)); }
    }

    method Resume(k: Kernel) returns (ok: bool)
      modifies k
      ensures ok == (thread.port != 0 && thread.resumes)
      ensures k.trace == old(k.trace) + if thread.port != 0 then [ResumeCall(thread)] else []
    {
      ok := false;
      if thread.port == 0 { return; }
      ok := thread.resumes;
      k.Log(if ok then Event.Resume(thread.port) else Refuse(thread.port));
    }
  }

  // Handles for all listed threads but the calling one; none if listing fails.
  method AllExcludingCurrent(k: Kernel, ok: bool, all: seq<Thread>, current: nat) returns (handles: seq<ThreadHandle>)
    modifies k
    ensures var ts := if ok then all else [];
            && k.trace == old(k.trace) + Acquires(ts) + OwnReleases(ts, current)
            && |handles| == |Others(ts, current)|
            && forall i :: 0 <= i < |handles| ==>
                 handles[i].thread == Others(ts, current)[i] && handles[i].isOwnedPort && !handles[i].pthreadHandle
    ensures fresh(handles)
    ensures forall i, j :: 0 <= i < j < |handles| ==> handles[i] != handles[j]
  {
    hide Acquires;
    var ts := k.TaskThreads(ok, all);
    handles := [];
    for i := 0 to |ts|
      invariant k.trace == old(k.trace) + Acquires(ts) + OwnReleases(ts[..i], current)
      invariant |handles| == |Others(ts[..i], current)| && fresh(handles)
      invariant forall j :: 0 <= j < |handles| ==>
                  handles[j].thread == Others(ts[..i], current)[j] && handles[j].isOwnedPort && !handles[j].pthreadHandle
      invariant forall i, j :: 0 <= i < j < |handles| ==> handles[i] != handles[j]
    {
      assert ts[..i + 1][..i] == ts[..i];
      if ts[i].port != current {
        var h := new ThreadHandle(ts[i], true);
        handles := handles + [h];
      } else {
        k.Log(Release(ts[i].port));
      }
    }
    assert ts[..|ts|] == ts;
  }

  // The metadata of a thread, asking the system only on a cache miss.
  method Metadata(k: Kernel, cache: ThreadMetadataCache, h: ThreadHandle) returns (m: ThreadMetadata.Metadata)
    requires !h.pthreadHandle
    modifies k, cache, h
    ensures k.trace == old(k.trace) + MetadataCalls(old(cache.entries), h.thread)
    ensures m == Looked(old(cache.entries), h.thread.port, AnswerOf(h.thread))
    ensures cache.entries == Learned(old(cache.entries), h.thread.port, AnswerOf(h.thread))
    ensures h.pthreadHandle == (!Known(old(cache.entries), h.thread.port) && h.thread.pthread)
  {
    k.Log(Lookup(h.thread.port));
    var answer := Answer(-1, "");
    if !Known(cache.entries, h.thread.port) {
      var p := h.Priority(k);
      if p != -1 {
        var name := h.Name(k);
        answer := Answer(p, name);
      }
    }
    m := cache.MetadataForThread(h.thread.port, answer);
  }

  // Suspend, walk, resume, and report a complete stack.
  method WalkThread(a: Arch, k: Kernel, h: ThreadHandle, bounds: Bounds, current: nat, ownFrame: nat)
    requires h.thread.port != 0 && h.thread.port != current && bounds == BoundsOf(a, h.thread)
    modifies k
    ensures k.trace == old(k.trace) + WalkCalls(a, h.thread)
  {
    hide Reported, FullStack, Complete, Frames, Map, IsValidFrame, IsValid;
    var t := h.thread;
    var suspended := h.Suspend(k);
    if !suspended { return; }
    var reached := new Flag(false);
    var addresses := new nat[MAX_DEPTH];
    var reader := new Reader(a, t.memory);
    BoundsOfAreWords(a, t);
    var depth := Backtrace(reader, t.port == current, ownFrame, t.context, t.stateOk, addresses, bounds,
                           reached, MAX_DEPTH, 0);
    k.Log(Walk(t.port));
    var resumed := h.Resume(k);
    if reached.value {
      WholeStack(a, StackOf(a, t));
      k.Log(Report(t.port, false, addresses[..depth]));
    }
  }

  lemma BoundsOfAreWords(a: Arch, t: Thread)
    ensures BoundsAreWords(a, BoundsOf(a, t))
  {}

  // The body of the pass for one thread.
  method VisitThread(a: Arch, k: Kernel, cache: ThreadMetadataCache, h: ThreadHandle, current: nat, ownFrame: nat)
    requires !h.pthreadHandle && h.thread.port != current
    modifies k, cache, h
    ensures k.trace == old(k.trace) + Visit(a, old(cache.entries), h.thread)
    ensures cache.entries == VisitCache(old(cache.entries), h.thread)
  {
    hide WalkCalls, Looked, Learned, BoundsOf, MetadataCalls;
    var t := h.thread;
    if IsIdle(t) {
      k.Log(Report(t.port, true, []));
      return;
    }
    var m := Metadata(k, cache, h);
    if m.threadID == 0 { return; }
    var bounds := h.StackBounds(a, k);
    WalkThread(a, k, h, bounds, current, ownFrame);
  }

  // With nothing skipped and enough room the report is the whole stack.
  lemma WholeStack(a: Arch, full: seq<nat>)
    ensures |full| <= MAX_DEPTH ==> Reported(a, full, MAX_DEPTH, 0) == Map(a, full)
  {
    assert Drop(full, 0) == full;
    if |full| <= MAX_DEPTH { assert Take(full, MAX_DEPTH) == full; }
  }

  method VisitAll(a: Arch, k: Kernel, cache: ThreadMetadataCache, handles: seq<ThreadHandle>,
                  ghost ts: seq<Thread>, current: nat, ownFrame: nat)
    requires |handles| == |ts| && forall i :: 0 <= i < |ts| ==> handles[i].thread == ts[i] && ts[i].port != current
    requires forall i :: 0 <= i < |handles| ==> !handles[i].pthreadHandle
    requires forall i, j :: 0 <= i < j < |handles| ==> handles[i] != handles[j]
    modifies k, cache, handles
    ensures k.trace == old(k.trace) + Visits(a, old(cache.entries), ts)
    ensures cache.entries == CacheAfter(old(cache.entries), ts)
  {
    hide Visit, VisitCache;
    for i := 0 to |handles|
      invariant k.trace == old(k.trace) + Visits(a, old(cache.entries), ts[..i])
      invariant cache.entries == CacheAfter(old(cache.entries), ts[..i])
      invariant forall j :: i <= j < |handles| ==> !handles[j].pthreadHandle
    {
      assert ts[..i + 1][..i] == ts[..i];
      VisitThread(a, k, cache, handles[i], current, ownFrame);
    }
    assert ts[..|ts|] == ts;
  }

  // The handles go out of scope.
  method DestroyAll(k: Kernel, handles: seq<ThreadHandle>, ghost ts: seq<Thread>)
    requires |handles| == |ts|
    requires forall i :: 0 <= i < |ts| ==> handles[i].thread == ts[i] && handles[i].isOwnedPort
    modifies k
    ensures k.trace == old(k.trace) + Releases(ts)
  {
    for i := 0 to |handles|
      invariant k.trace == old(k.trace) + Releases(ts[..i])
    {
      assert ts[..i + 1][..i] == ts[..i];
      handles[i].Destroy(k);
    }
    assert ts[..|ts|] == ts;
  }

  /** enumerateBacktracesForAllThreads: the trace is exactly that of Pass over the
      threads the kernel lists, and the cache learns what the visits teach it. */
  method EnumerateBacktraces(a: Arch, k: Kernel, cache: ThreadMetadataCache, ok: bool, all: seq<Thread>, current: nat,
                             ownFrame: nat)
    modifies k, cache
    ensures var ts := if ok then all else [];
            && k.trace == old(k.trace) + Pass(a, old(cache.entries), ts, current)
            && cache.entries == CacheAfter(old(cache.entries), Others(ts, current))
  {
    hide Visits, CacheAfter, Acquires, OwnReleases, Others, Releases;
    ghost var ts := if ok then all else [];
    var handles := AllExcludingCurrent(k, ok, all, current);
    OthersDiffer(ts, current);
    VisitAll(a, k, cache, handles, Others(ts, current), current, ownFrame);
    DestroyAll(k, handles, Others(ts, current));
  }

  lemma {:induction false} OthersDiffer(ts: seq<Thread>, current: nat)
    ensures forall t :: t in Others(ts, current) <==> t in ts && t.port != current
  {
    if ts != [] {
      OthersDiffer(ts[..|ts| - 1], current);
      assert ts == ts[..|ts| - 1] + [ts[|ts| - 1]];
    }
  }
}
