/**
  The cache of thread names that crash handlers read: four parallel arrays and a
  count, replaced so that a crash between any two steps finds them readable.
  Memory is modelled as live blocks; every store to it and every free is one
  micro-step and is recorded.
 */
module ThreadNames {

  datatype Ptr = Null | To(id: nat)

  datatype Block = Handles(handles: seq<nat>) | Strings(strings: seq<Ptr>) | Chars(text: string)

  // All that a crash handler can see.
  datatype World = World(heap: map<nat, Block>, mach: Ptr, pthreads: Ptr, names: Ptr, queues: Ptr, count: nat)

  // ----- reading in a stopped world

  datatype Answer = Fault | NoName | Name(text: string)

  predicate HasHandle(w: World, p: Ptr, i: nat) {
    p.To? && p.id in w.heap && w.heap[p.id].Handles? && i < |w.heap[p.id].handles|
  }

  // What the slot yields: a fault unless it is readable and null or a live string.
  function StringAt(w: World, p: Ptr, i: nat): Answer {
    if !(p.To? && p.id in w.heap && w.heap[p.id].Strings? && i < |w.heap[p.id].strings|) then Fault
    else
      match w.heap[p.id].strings[i]
      case Null => NoName
      case To(s) => if s in w.heap && w.heap[s].Chars? then Name(w.heap[s].text) else Fault
  }

  function Lookup(w: World, table: Ptr, thread: nat, i: nat): Answer
    decreases w.count - i
  {
    if i >= w.count then NoName
    else if !HasHandle(w, w.mach, i) then Fault
    else if w.heap[w.mach.id].handles[i] == thread then StringAt(w, table, i)
    else Lookup(w, table, thread, i + 1)
  }

  function ThreadName(w: World, thread: nat): Answer {
    if w.names == Null then NoName else Lookup(w, w.names, thread, 0)
  }

  function QueueName(w: World, thread: nat): Answer {
    if w.queues == Null then NoName else Lookup(w, w.queues, thread, 0)
  }

  // A crash at this point can read the cache: no lookup faults, whatever the thread.
  // Which name it finds is another matter, see StagedAnswers.
  ghost predicate CrashSafe(w: World) {
    forall thread: nat :: ThreadName(w, thread) != Fault && QueueName(w, thread) != Fault
  }

  // ----- the invariant behind it

  predicate HandlesOk(w: World, p: Ptr) {
    p.To? ==> p.id in w.heap && w.heap[p.id].Handles? && w.count <= |w.heap[p.id].handles|
  }

  predicate StringsOk(w: World, p: Ptr) {
    p.To? ==> p.id in w.heap && w.heap[p.id].Strings? && w.count <= |w.heap[p.id].strings| && StringsLive(w.heap, p.id)
  }

  predicate StringsLive(heap: map<nat, Block>, id: nat)
    requires id in heap && heap[id].Strings?
  {
    forall i :: 0 <= i < |heap[id].strings| ==>
      var s := heap[id].strings[i]; s.To? ==> s.id in heap && heap[s.id].Chars?
  }

  predicate Consistent(w: World) {
    && HandlesOk(w, w.mach) && HandlesOk(w, w.pthreads) && StringsOk(w, w.names) && StringsOk(w, w.queues)
    && (w.mach == Null || w.pthreads == Null || w.names == Null || w.queues == Null ==> w.count == 0)
  }

  lemma {:induction false} LookupSafe(w: World, table: Ptr, thread: nat, i: nat)
    requires Consistent(w) && (table == w.names || table == w.queues)
    ensures Lookup(w, table, thread, i) != Fault
    decreases w.count - i
  {
    if i < w.count { LookupSafe(w, table, thread, i + 1); }
  }

  lemma ConsistentIsSafe(w: World)
    requires Consistent(w)
    ensures CrashSafe(w)
  {
    forall thread: nat ensures ThreadName(w, thread) != Fault && QueueName(w, thread) != Fault {
      LookupSafe(w, w.names, thread, 0);
      LookupSafe(w, w.queues, thread, 0);
    }
  }

  // ----- what the kernel lists

  datatype Listed = Listed(port: nat, pthread: nat, nameOk: bool, buffer: string)

  predicate HasName(t: Listed) { t.pthread != 0 && t.nameOk && t.buffer != "" }

  function Ports(ts: seq<Listed>): (r: seq<nat>)
    ensures |r| == |ts|
  {
    seq(|ts|, i requires 0 <= i < |ts| => ts[i].port)
  }

  function PThreads(ts: seq<Listed>): (r: seq<nat>)
    ensures |r| == |ts|
  {
    seq(|ts|, i requires 0 <= i < |ts| => ts[i].pthread)
  }

  function NameOf(t: Listed): Answer { if HasName(t) then Name(t.buffer) else NoName }

  // The name a reader should get: that of the first listed thread with the handle.
  function Expected(ts: seq<Listed>, thread: nat): Answer {
    if ts == [] then NoName
    else if ts[0].port == thread then NameOf(ts[0])
    else Expected(ts[1..], thread)
  }

  // ----- one set of tables

  // The pointers of the four parallel arrays.
  datatype Tables = Tables(mach: Ptr, pthreads: Ptr, names: Ptr, queues: Ptr)

  // The first n name slots are filled for ts, each with a string of its own.
  predicate Filled(heap: map<nat, Block>, ns: seq<Ptr>, ts: seq<Listed>, n: nat) {
    && |ns| == |ts| && n <= |ts|
    && (forall j :: 0 <= j < |ts| ==>
          if j < n && HasName(ts[j]) then ns[j].To? && ns[j].id in heap && heap[ns[j].id] == Chars(ts[j].buffer)
          else ns[j] == Null)
    && OwnStrings(ns)
  }

  // No two slots share a string.
  predicate OwnStrings(ns: seq<Ptr>) {
    forall j, k :: 0 <= j < k < |ns| && ns[j].To? && ns[k].To? ==> ns[j].id != ns[k].id
  }

  function StringIds(ns: seq<Ptr>): set<nat> { set p | p in ns && p.To? :: p.id }

  // The four arrays for ts, the names filled up to n.
  predicate Holds(heap: map<nat, Block>, p: Tables, ts: seq<Listed>, n: nat) {
    && p.mach.To? && p.pthreads.To? && p.names.To? && p.queues.To?
    && p.mach.id != p.pthreads.id && p.mach.id != p.names.id && p.mach.id != p.queues.id
    && p.pthreads.id != p.names.id && p.pthreads.id != p.queues.id && p.names.id != p.queues.id
    && p.mach.id in heap && heap[p.mach.id] == Handles(Ports(ts))
    && p.pthreads.id in heap && heap[p.pthreads.id] == Handles(PThreads(ts))
    && p.queues.id in heap && heap[p.queues.id] == Strings(seq(|ts|, i => Null))
    && p.names.id in heap && heap[p.names.id].Strings? && Filled(heap, heap[p.names.id].strings, ts, n)
  }

  // Handles of one listing stand beside names of another, up to the count.
  predicate Pairs(w: World, hs: seq<Listed>, ns: seq<Listed>) {
    && w.count <= |hs| && w.count <= |ns|
    && w.mach.To? && w.mach.id in w.heap && w.heap[w.mach.id] == Handles(Ports(hs))
    && w.names.To? && w.names.id in w.heap && w.heap[w.names.id].Strings?
    && Filled(w.heap, w.heap[w.names.id].strings, ns, |ns|)
  }

  // What readers can meet while listing `was` is replaced by `next`: one or the
  // other, or in between the new handles beside the old names.
  predicate Staged(w: World, was: seq<Listed>, next: seq<Listed>) {
    w.count == 0 || Pairs(w, was, was) || Pairs(w, next, was) || Pairs(w, next, next)
  }

  predicate Fine(w: World, was: seq<Listed>, next: seq<Listed>) { Consistent(w) && Staged(w, was, next) }

  // The blocks a set of tables consists of.
  function Blocks(heap: map<nat, Block>, p: Tables): set<nat>
    requires p.mach.To? && p.pthreads.To? && p.names.To? && p.queues.To?
    requires p.names.id in heap && heap[p.names.id].Strings?
  {
    {p.mach.id, p.pthreads.id, p.names.id, p.queues.id} + StringIds(heap[p.names.id].strings)
  }

  class Cache {
    var heap: map<nat, Block>
    var tables: Tables
    var count: nat
    var top: nat                      // identities below top have been allocated
    var released: multiset<nat>       // calls of free
    var seen: seq<World>              // the world after each micro-step
    var portsTaken: multiset<nat>     // references handed out by task_threads
    var portsReturned: multiset<nat>
    ghost var listed: seq<Listed>     // what the installed tables describe
    ghost var was: seq<Listed>        // what an update replaces
    ghost var next: seq<Listed>       // and by what

    function Snapshot(): World
      reads `heap, `tables, `count
    {
      World(heap, tables.mach, tables.pthreads, tables.names, tables.queues, count)
    }

    // Every allocated block is either live or has been freed exactly once.
    ghost predicate Ledger()
      reads `heap, `top, `released
    {
      forall id: nat :: (if id in heap then 1 else 0) + released[id] == if id < top then 1 else 0
    }

    // At rest: either nothing is installed, or the tables of the last listing
    // are, and they are all that is live.
    ghost predicate Valid()
      reads `heap, `tables, `count, `top, `released, `listed
    {
      && Ledger()
      && if tables.mach == Null then
           tables == Tables(Null, Null, Null, Null) && count == 0 && heap == map[] && listed == []
         else
           Holds(heap, tables, listed, |listed|) && count == |listed| && heap.Keys == Blocks(heap, tables)
    }

    constructor ()
      ensures Valid() && listed == [] && seen == [] && released == multiset{}
      ensures portsTaken == portsReturned == multiset{}
    {
      heap, tables, count, top := map[], Tables(Null, Null, Null, Null), 0, 0;
      released, seen, portsTaken, portsReturned := multiset{}, [], multiset{}, multiset{};
      listed, was, next := [], [], [];
    }

    // ----- micro-steps

    method Alloc(b: Block) returns (id: nat)
      requires Ledger()
      modifies `heap, `top, `seen
      ensures Ledger() && id == old(top) && top == id + 1 && id !in old(heap)
      ensures heap == old(heap)[id := b] && seen == old(seen) + [Snapshot()]
    {
      id := top;
      assert (if id in heap then 1 else 0) + released[id] == 0;
      heap, top := heap[id := b], top + 1;
      seen := seen + [Snapshot()];
    }

    method Write(id: nat, b: Block)
      requires Ledger() && id in heap
      modifies `heap, `seen
      ensures Ledger() && heap == old(heap)[id := b] && seen == old(seen) + [Snapshot()]
    {
      heap := heap[id := b];
      seen := seen + [Snapshot()];
    }

    // free: the block must be live.
    method Free(id: nat)
      requires Ledger() && id in heap
      modifies `heap, `released, `seen
      ensures Ledger() && heap == old(heap) - {id} && released == old(released) + multiset{id}
      ensures seen == old(seen) + [Snapshot()]
    {
      heap, released := heap - {id}, released + multiset{id};
      seen := seen + [Snapshot()];
    }

    method SetCount(n: nat)
      requires Ledger()
      modifies `count, `seen
      ensures Ledger() && count == n && seen == old(seen) + [Snapshot()]
    {
      count := n;
      seen := seen + [Snapshot()];
    }

    method SetTables(p: Tables)
      requires Ledger()
      modifies `tables, `seen
      ensures Ledger() && tables == p && seen == old(seen) + [Snapshot()]
    {
      tables := p;
      seen := seen + [Snapshot()];
    }

    // From the first `from` worlds on only consistent stages of the update have been seen.
    ghost predicate SafeFrom(from: nat)
      reads `heap, `tables, `count, `seen, `was, `next
    {
      from <= |seen| && Fine(Snapshot(), was, next) && forall k :: from <= k < |seen| ==> Fine(seen[k], was, next)
    }

    // ----- updateThreadList

    // An allocation no reader notices.
    method AllocUnseen(b: Block, ghost w0: World, ghost from: nat) returns (id: nat)
      requires SafeFrom(from) && Ledger() && Fine(w0, was, next) && Extends(w0.heap, heap) && Snapshot() == w0.(heap := heap)
      modifies `heap, `top, `seen
      ensures Ledger() && id == old(top) && top == id + 1 && id !in old(heap)
      ensures heap == old(heap)[id := b] && seen == old(seen) + [Snapshot()]
      ensures Extends(w0.heap, heap) && SafeFrom(from)
    {
      hide Fine, Consistent;
      id := Alloc(b);
      KeptSafe(w0, Snapshot(), was, next);
    }

    // calloc four times, where no reader looks.
    method AllocTables(ts: seq<Listed>, ghost from: nat) returns (p: Tables)
      requires SafeFrom(from) && Ledger()
      modifies `heap, `top, `seen
      ensures Ledger() && SafeFrom(from) && old(seen) <= seen
      ensures Extends(old(heap), heap) && Holds(heap, p, ts, 0) && top >= old(top)
      ensures heap.Keys == old(heap).Keys + Blocks(heap, p) && Blocks(heap, p) !! old(heap).Keys
    {
      hide Fine, Consistent, Ledger, Holds, Filled, Ports, PThreads, Extends;
      ghost var w0 := Snapshot();
      ExtendsItself(heap);
      var mach := AllocUnseen(Handles(Ports(ts)), w0, from);
      var pthreads := AllocUnseen(Handles(PThreads(ts)), w0, from);
      var names := AllocUnseen(Strings(seq(|ts|, i => Null)), w0, from);
      var queues := AllocUnseen(Strings(seq(|ts|, i => Null)), w0, from);
      p := Tables(To(mach), To(pthreads), To(names), To(queues));
      assert StringIds(heap[names].strings) == {};
      EmptyTables(heap, p, ts);
    }

    // strdup into the next slot of a table that is not installed.
    method AddName(p: Tables, ghost ts: seq<Listed>, i: nat, text: string, ghost w0: World, ghost from: nat)
      requires SafeFrom(from) && Ledger() && Fine(w0, was, next) && Extends(w0.heap, heap) && Snapshot() == w0.(heap := heap)
      requires i < |ts| && HasName(ts[i]) && text == ts[i].buffer
      requires Holds(heap, p, ts, i) && heap.Keys == w0.heap.Keys + Blocks(heap, p) && Blocks(heap, p) !! w0.heap.Keys
      modifies `heap, `top, `seen
      ensures Ledger() && SafeFrom(from) && old(seen) <= seen && Extends(w0.heap, heap)
      ensures Holds(heap, p, ts, i + 1) && top >= old(top)
      ensures heap.Keys == w0.heap.Keys + Blocks(heap, p) && Blocks(heap, p) !! w0.heap.Keys
    {
      hide Fine, Consistent, Holds, Filled;
      HoldsNames(heap, p, ts, i);
      var names: nat := p.names.id;
      ghost var before: map<nat, Block> := heap;
      var ns := heap[names].strings;
      var s := AllocUnseen(Chars(text), w0, from);
      assert heap[names].strings == ns;
      Write(names, Strings(ns[i := To(s)]));
      assert heap == before[s := Chars(text)][names := Strings(ns[i := To(s)])];
      KeptSafe(w0, Snapshot(), was, next);
      SlotFilled(ns, i, s);
      HoldsNext(before, p, ts, i, s);
    }

    // New tables, complete before any reader can see them.
    method Build(ts: seq<Listed>, ghost from: nat) returns (p: Tables)
      requires SafeFrom(from) && Ledger()
      modifies `heap, `top, `seen
      ensures Ledger() && SafeFrom(from) && old(seen) <= seen
      ensures Extends(old(heap), heap) && Holds(heap, p, ts, |ts|) && top >= old(top)
      ensures heap.Keys == old(heap).Keys + Blocks(heap, p) && Blocks(heap, p) !! old(heap).Keys
    {
      hide Fine, Consistent, Holds, Blocks;
      p := AllocTables(ts, from);
      HoldsNames(heap, p, ts, 0);
      for i := 0 to |ts|
        invariant Ledger() && SafeFrom(from) && old(seen) <= seen && Extends(old(heap), heap)
        invariant Holds(heap, p, ts, i) && HoldsBasics(heap, p) && top >= old(top)
        invariant heap.Keys == old(heap).Keys + Blocks(heap, p) && Blocks(heap, p) !! old(heap).Keys
      {
        if HasName(ts[i]) {
          AddName(p, ts, i, ts[i].buffer, old(Snapshot()), from);
          HoldsNames(heap, p, ts, i + 1);
        } else {
          HoldsSkip(heap, p, ts, i);
        }
      }
    }

    // One pointer store: old and new tables in any mixture, but never old handles
    // beside new names.
    method Swap(to: Tables, ghost p: Tables, ghost w0: World, ghost from: nat)
      requires SafeFrom(from) && Ledger() && Replaces(w0, p, was, next) && heap == w0.heap
      requires count <= w0.count && count <= |next|
      requires (to.mach == w0.mach && to.names == w0.names) ||
               (to.mach == p.mach && (to.names == w0.names || to.names == p.names))
      requires to.pthreads == w0.pthreads || to.pthreads == p.pthreads
      requires to.queues == w0.queues || to.queues == p.queues
      modifies `tables, `seen
      ensures Ledger() && SafeFrom(from) && seen == old(seen) + [Snapshot()] && tables == to
    {
      hide Fine, Ledger, Replaces;
      SetTables(to);
      MixedSafe(w0, p, was, next, Snapshot());
    }

    // The swaps: lower the count, exchange one pointer at a time, raise the count.
    // `mid` is the moment between the first swap and the third.
    method Install(p: Tables, n: nat, ghost from: nat) returns (ghost mid: nat)
      requires SafeFrom(from) && Ledger() && Replaces(Snapshot(), p, was, next) && n == |next|
      modifies `tables, `count, `seen
      ensures Ledger() && SafeFrom(from) && old(seen) <= seen && tables == p && count == n
      ensures |old(seen)| <= mid < |seen|
      ensures old(tables).mach != Null ==> Pairs(seen[mid], next, was) && seen[mid].count == if |was| < n then |was| else n
    {
      hide Fine, Ledger, Replaces, Pairs;
      ghost var w0 := Snapshot();
      SetCount(if count < n then count else n);
      MixedSafe(w0, p, was, next, Snapshot());
      Swap(tables.(mach := p.mach), p, w0, from);
      mid := |seen| - 1;
      if w0.mach != Null { MixedPairs(w0, p, was, next, Snapshot()); }
      Swap(tables.(pthreads := p.pthreads), p, w0, from);
      Swap(tables.(names := p.names), p, w0, from);
      Swap(tables.(queues := p.queues), p, w0, from);
      SetCount(n);
      ReplacedIsFine(w0, p, was, next, Snapshot());
    }

    // Free one block that is no longer installed.
    method FreeBlock(id: nat, ghost ts: seq<Listed>, ghost from: nat)
      requires SafeFrom(from) && Ledger() && id in heap
      requires Holds(heap, tables, ts, |ts|) && count == |ts| && id !in Blocks(heap, tables) && ts == next
      modifies `heap, `released, `seen
      ensures Ledger() && SafeFrom(from) && old(seen) <= seen && heap == old(heap) - {id}
      ensures Holds(heap, tables, ts, |ts|) && Blocks(heap, tables) == Blocks(old(heap), tables)
    {
      hide Holds, Fine, Consistent, Ledger;
      BlocksAreLive(heap, tables, ts);
      Free(id);
      HoldsKept(old(heap), heap, tables, ts);
      HoldsIsFine(Snapshot(), tables, was, ts);
    }

    // Free the strings of a table that is no longer installed.
    method FreeStrings(ns: seq<Ptr>, n: nat, ghost ts: seq<Listed>, ghost keep: set<nat>, ghost from: nat)
      requires SafeFrom(from) && Ledger() && n == |ns| && heap.Keys == keep + StringIds(ns) && keep !! StringIds(ns)
      requires OwnStrings(ns)
      requires Holds(heap, tables, ts, |ts|) && count == |ts| && Blocks(heap, tables) <= keep && ts == next
      modifies `heap, `released, `seen
      ensures Ledger() && SafeFrom(from) && old(seen) <= seen && heap.Keys == keep && Extends(heap, old(heap))
      ensures Holds(heap, tables, ts, |ts|) && Blocks(heap, tables) == Blocks(old(heap), tables)
    {
      hide Holds, Fine, Consistent, Ledger, Blocks, OwnStrings, StringIds;
      BlocksAreLive(heap, tables, ts);
      ExtendsItself(heap);
      assert ns[0..] == ns;
      for i := 0 to n
        invariant Ledger() && SafeFrom(from) && old(seen) <= seen && heap.Keys == keep + StringIds(ns[i..])
        invariant Extends(heap, old(heap))
        invariant Holds(heap, tables, ts, |ts|) && HoldsBasics(heap, tables) && Blocks(heap, tables) == Blocks(old(heap), tables)
      {
        TailStrings(ns, i);
        if ns[i] != Null {
          FreeBlock(ns[i].id, ts, from);
          BlocksAreLive(heap, tables, ts);
        }
      }
      NoStrings(ns[n..]);
    }

    // A table of strings that is no longer installed, strings first.
    method FreeTable(id: nat, ns: seq<Ptr>, n: nat, ghost ts: seq<Listed>, ghost keep: set<nat>, ghost from: nat)
      requires SafeFrom(from) && Ledger() && n == |ns| && OwnStrings(ns)
      requires heap.Keys == keep + {id} + StringIds(ns) && keep !! StringIds(ns) && id !in keep && id !in StringIds(ns)
      requires Holds(heap, tables, ts, |ts|) && count == |ts| && Blocks(heap, tables) <= keep && ts == next
      modifies `heap, `released, `seen
      ensures Ledger() && SafeFrom(from) && old(seen) <= seen && heap.Keys == keep
      ensures Holds(heap, tables, ts, |ts|) && Blocks(heap, tables) == Blocks(old(heap), tables)
    {
      hide Holds, Fine, Consistent, Ledger, Blocks, OwnStrings, StringIds;
      BlocksAreLive(heap, tables, ts);
      FreeStrings(ns, n, ts, keep + {id}, from);
      BlocksAreLive(heap, tables, ts);
      FreeBlock(id, ts, from);
    }

    // The old tables, once they are no longer installed.
    method FreeTables(gone: Tables, n: nat, ghost was: seq<Listed>, ghost ts: seq<Listed>, ghost from: nat)
      requires SafeFrom(from) && Ledger() && n == |was| && Holds(heap, gone, was, n)
      requires Holds(heap, tables, ts, |ts|) && count == |ts| && ts == next
      requires heap.Keys == Blocks(heap, gone) + Blocks(heap, tables) && Blocks(heap, gone) !! Blocks(heap, tables)
      modifies `heap, `released, `seen
      ensures Ledger() && SafeFrom(from) && old(seen) <= seen
      ensures Holds(heap, tables, ts, |ts|) && heap.Keys == Blocks(heap, tables)
      ensures Blocks(heap, tables) == Blocks(old(heap), tables)
    {
      hide Fine, Consistent, Ledger, Holds, OwnStrings, StringIds;
      StringsApart(heap, gone, was);
      BlocksAreLive(heap, tables, ts);
      ghost var keep := Blocks(heap, tables);
      var ns := heap[gone.names.id].strings;
      var qs := heap[gone.queues.id].strings;
      hide Blocks;
      FreeBlock(gone.mach.id, ts, from);
      FreeBlock(gone.pthreads.id, ts, from);
      FreeTable(gone.names.id, ns, n, ts, keep + {gone.queues.id}, from);
      FreeTable(gone.queues.id, qs, n, ts, keep, from);
    }

    method ReturnPorts(ts: seq<Listed>)
      modifies `portsReturned
      ensures portsReturned == old(portsReturned) + multiset(Ports(ts))
    {
      for i := 0 to |ts|
        invariant portsReturned == old(portsReturned) + multiset(Ports(ts)[..i])
      {
        assert Ports(ts)[..i + 1] == Ports(ts)[..i] + [Ports(ts)[i]];
        portsReturned := portsReturned + multiset{ts[i].port};
      }
      assert Ports(ts)[..|ts|] == Ports(ts);
    }

    /** One update.  At no micro-step does a stopped-world lookup fault; at the
        end the cache describes the new listing, every block of the old tables has
        been freed exactly once and nothing else has, and the port references are
        given back.  If the threads cannot be listed nothing happens. */
    method UpdateThreadList(ok: bool, ts: seq<Listed>) returns (ghost mid: nat)
      requires Valid()
      modifies this
      ensures Valid() && listed == if ok then ts else old(listed)
      ensures old(seen) <= seen && (forall k :: |old(seen)| <= k < |seen| ==> CrashSafe(seen[k]))
      ensures forall k :: |old(seen)| <= k < |seen| ==> Staged(seen[k], old(listed), ts)
      ensures ok && old(tables).mach != Null ==> Between(old(seen), mid, old(listed), ts)
      ensures !ok ==> unchanged(this)
      ensures ok ==> portsTaken == old(portsTaken) + multiset(Ports(ts)) &&
                     portsReturned == old(portsReturned) + multiset(Ports(ts))
      ensures ok ==> (forall id :: id in old(heap) ==> id !in heap && released[id] == 1)
    {
      mid := 0;
      if !ok { return; }
      hide Ports, CrashSafe, Valid, Staged;
      portsTaken := portsTaken + multiset(Ports(ts));
      mid := Refresh(ts);
      ReturnPorts(ts);
    }

    // World mid, seen after those in `before`, has new handles beside old names, as
    // many as both listings have.
    ghost predicate Between(before: seq<World>, mid: nat, hs: seq<Listed>, ts: seq<Listed>)
      reads `seen
    {
      && |before| <= mid < |seen| && Pairs(seen[mid], ts, hs)
      && seen[mid].count == if |hs| < |ts| then |hs| else |ts|
    }

    // The same without the port references.
    method Refresh(ts: seq<Listed>) returns (ghost mid: nat)
      requires Valid()
      modifies `heap, `tables, `count, `top, `released, `seen, `listed, `was, `next
      ensures Valid() && listed == ts
      ensures old(seen) <= seen && (forall k :: |old(seen)| <= k < |seen| ==> CrashSafe(seen[k]))
      ensures forall k :: |old(seen)| <= k < |seen| ==> Staged(seen[k], old(listed), ts)
      ensures old(tables).mach != Null ==> Between(old(seen), mid, old(listed), ts)
      ensures forall id :: id in old(heap) ==> id !in heap && released[id] == 1
    {
      hide Fine, Consistent, Staged, Pairs, Holds, Blocks, Ledger, CrashSafe;
      was, next := listed, ts;
      AtRest();
      LiveBelowTop();
      ghost var from := |seen|;
      mid := Replace(ts, from);
      Accounted(old(heap), old(top));
      SeenIsSafe(from);
      BlocksAreLive(heap, tables, ts);
      listed := ts;
    }

    lemma SeenIsSafe(from: nat)
      requires SafeFrom(from)
      ensures forall k :: from <= k < |seen| ==> CrashSafe(seen[k]) && Staged(seen[k], was, next)
    {
      forall k | from <= k < |seen| ensures CrashSafe(seen[k]) { ConsistentIsSafe(seen[k]); }
    }

    // Build, install, free.
    method Replace(ts: seq<Listed>, ghost from: nat) returns (ghost mid: nat)
      requires Valid() && SafeFrom(from) && was == listed && next == ts
      modifies `heap, `tables, `count, `top, `released, `seen
      ensures Ledger() && SafeFrom(from) && old(seen) <= seen && top >= old(top)
      ensures Holds(heap, tables, ts, |ts|) && count == |ts| && heap.Keys == Blocks(heap, tables)
      ensures heap.Keys !! old(heap).Keys
      ensures old(tables).mach != Null ==> Between(old(seen), mid, was, next)
    {
      hide Fine, Consistent, Holds, Ledger, Pairs;
      var before, oldCount := tables, count;
      var p := Build(ts, from);
      if before.mach != Null {
        BlocksAreLive(old(heap), before, listed);
        HoldsKept(old(heap), heap, before, listed);
      }
      MayReplace(p, from);
      mid := Install(p, |ts|, from);
      if before.mach != Null {
        FreeTables(before, oldCount, listed, ts, from);
      }
    }

    lemma MayReplace(p: Tables, from: nat)
      requires SafeFrom(from) && Holds(heap, p, next, |next|)
      requires if tables.mach == Null then count == 0 else Holds(heap, tables, was, |was|) && count == |was|
      ensures Replaces(Snapshot(), p, was, next)
    {}

    // A block allocated before and no longer live has been freed exactly once.
    lemma Accounted(heap0: map<nat, Block>, top0: nat)
      requires Ledger() && top0 <= top && heap.Keys !! heap0.Keys && (forall id :: id in heap0 ==> id < top0)
      ensures forall id :: id in heap0 ==> id !in heap && released[id] == 1
    {}

    lemma LiveBelowTop()
      requires Ledger()
      ensures forall id :: id in heap ==> id < top
    {}

    // At rest the world is consistent.
    lemma AtRest()
      requires Valid() && was == listed
      ensures SafeFrom(|seen|)
    {
      if tables.mach != Null { HoldsIsFine(Snapshot(), tables, next, was); }
    }

    // sentrycrashccd_getThreadName, run while nothing else does.
    method GetThreadName(thread: nat) returns (r: Answer)
      requires Consistent(Snapshot())
      ensures r == ThreadName(Snapshot(), thread)
    {
      hide Fine, Consistent;
      r := NoName;
      if tables.names != Null {
        var i := 0;
        while i < count
          invariant 0 <= i <= count && Lookup(Snapshot(), tables.names, thread, 0) == Lookup(Snapshot(), tables.names, thread, i)
        {
          LookupSafe(Snapshot(), tables.names, thread, i);
          if heap[tables.mach.id].handles[i] == thread {
            return StringAt(Snapshot(), tables.names, i);
          }
          i := i + 1;
        }
      }
    }
  }

  lemma {:induction false} LookupIs(w: World, p: Tables, ts: seq<Listed>, thread: nat, i: nat)
    requires Holds(w.heap, p, ts, |ts|) && w.count == |ts| && i <= |ts|
    requires p == Tables(w.mach, w.pthreads, w.names, w.queues)
    ensures Lookup(w, w.names, thread, i) == Expected(ts[i..], thread)
    ensures Lookup(w, w.queues, thread, i) == NoName
    decreases |ts| - i
  {
    if i < |ts| { LookupIs(w, p, ts, thread, i + 1); }
  }

  /** At rest a lookup finds the name of the first listed thread with the handle,
      and no queue has a name. */
  lemma NamesAreRight(w: World, p: Tables, ts: seq<Listed>, thread: nat)
    requires Holds(w.heap, p, ts, |ts|) && w.count == |ts|
    requires p == Tables(w.mach, w.pthreads, w.names, w.queues)
    ensures ThreadName(w, thread) == Expected(ts, thread) && QueueName(w, thread) == NoName
  {
    LookupIs(w, p, ts, thread, 0);
    assert ts[0..] == ts;
  }

  // ----- any number of updates

  // What the monitor gets in one round: whether the threads could be listed, and the list.
  datatype Round = Round(ok: bool, threads: seq<Listed>)

  function LastListing(rounds: seq<Round>): seq<Listed> {
    if rounds == [] then []
    else if rounds[|rounds| - 1].ok then rounds[|rounds| - 1].threads
    else LastListing(rounds[..|rounds| - 1])
  }

  function AllPorts(rounds: seq<Round>): multiset<nat> {
    if rounds == [] then multiset{}
    else
      AllPorts(rounds[..|rounds| - 1]) +
      if rounds[|rounds| - 1].ok then multiset(Ports(rounds[|rounds| - 1].threads)) else multiset{}
  }

  // All that is live is what the world's own tables consist of.
  predicate NothingElse(w: World) {
    if w.mach == Null then w.heap == map[]
    else
      && w.pthreads.To? && w.names.To? && w.queues.To? && w.names.id in w.heap && w.heap[w.names.id].Strings?
      && w.heap.Keys == Blocks(w.heap, Tables(w.mach, w.pthreads, w.names, w.queues))
  }

  // The updates, one after the other.
  method RunRounds(rounds: seq<Round>) returns (c: Cache)
    ensures c.Valid() && fresh(c) && c.listed == LastListing(rounds)
    ensures forall w :: w in c.seen ==> CrashSafe(w)
    ensures c.portsTaken == c.portsReturned == AllPorts(rounds)
  {
    hide Consistent, Holds, CrashSafe, Staged, Pairs, Blocks, Ports;
    c := new Cache();
    assert rounds[..0] == [];
    for i := 0 to |rounds|
      invariant c.Valid() && fresh(c)
      invariant c.listed == LastListing(rounds[..i])
      invariant forall w :: w in c.seen ==> CrashSafe(w)
      invariant c.portsTaken == c.portsReturned == AllPorts(rounds[..i])
    {
      assert rounds[..i + 1][..i] == rounds[..i];
      ghost var mid := c.UpdateThreadList(rounds[i].ok, rounds[i].threads);
    }
    assert rounds[..|rounds|] == rounds;
  }

  /** Over any number of updates, failing ones included: at no micro-step of any of
      them does a lookup fault; in the end lookups answer from the last listing, only
      its tables are live, every block ever superseded has been freed exactly once and
      nothing else has, and every port reference handed out has been given back. */
  method Replay(rounds: seq<Round>)
    returns (now: World, seen: seq<World>, top: nat, released: multiset<nat>, taken: multiset<nat>, returned: multiset<nat>)
    ensures forall w :: w in seen ==> CrashSafe(w)
    ensures forall thread: nat ::
              ThreadName(now, thread) == Expected(LastListing(rounds), thread) && QueueName(now, thread) == NoName
    ensures NothingElse(now)
    ensures forall id: nat :: released[id] == if id < top && id !in now.heap then 1 else 0
    ensures taken == returned == AllPorts(rounds)
  {
    var c := RunRounds(rounds);
    hide CrashSafe, ThreadName, QueueName, Expected, NothingElse;
    now, seen, top := c.Snapshot(), c.seen, c.top;
    released, taken, returned := c.released, c.portsTaken, c.portsReturned;
    AtRestAnswers(c);
  }

  // What a cache at rest answers, and what it keeps alive.
  lemma AtRestAnswers(c: Cache)
    requires c.Valid()
    ensures forall thread: nat ::
              ThreadName(c.Snapshot(), thread) == Expected(c.listed, thread) && QueueName(c.Snapshot(), thread) == NoName
    ensures NothingElse(c.Snapshot())
    ensures forall id: nat :: c.released[id] == if id < c.top && id !in c.heap then 1 else 0
  {
    hide ThreadName, QueueName, Expected;
    var w := c.Snapshot();
    forall thread: nat ensures ThreadName(w, thread) == Expected(c.listed, thread) && QueueName(w, thread) == NoName {
      if c.tables.mach != Null { NamesAreRight(w, c.tables, c.listed, thread); } else { NothingToFind(w, thread); }
    }
  }

  lemma NothingToFind(w: World, thread: nat)
    requires w.names == Null && w.queues == Null
    ensures ThreadName(w, thread) == Expected([], thread) && QueueName(w, thread) == NoName
  {}

  // ----- the same in the fields of the listing

  /** At rest, in plain fields: the first listed thread with the handle answers with its
      buffer if it has a pthread, the buffer could be filled and is not empty, and with
      nothing otherwise; a handle that is not listed has no name. */
  lemma {:induction false} ExpectedInFields(ts: seq<Listed>, thread: nat)
    ensures forall k :: 0 <= k < |ts| && ts[k].port == thread && (forall j :: 0 <= j < k ==> ts[j].port != thread) ==>
              Expected(ts, thread) ==
              if ts[k].pthread != 0 && ts[k].nameOk && ts[k].buffer != "" then Name(ts[k].buffer) else NoName
    ensures (forall j :: 0 <= j < |ts| ==> ts[j].port != thread) ==> Expected(ts, thread) == NoName
  {
    if ts != [] {
      ExpectedInFields(ts[1..], thread);
      forall k | 0 < k < |ts| && ts[k].port == thread && (forall j :: 0 <= j < k ==> ts[j].port != thread)
        ensures Expected(ts, thread) ==
                if ts[k].pthread != 0 && ts[k].nameOk && ts[k].buffer != "" then Name(ts[k].buffer) else NoName
      {
        assert ts[0].port != thread && ts[1..][k - 1] == ts[k];
        assert forall j :: 0 <= j < k - 1 ==> ts[1..][j] == ts[j + 1];
      }
    }
  }

  /** A lookup after any updates of which the last succeeded, run through the code. */
  method LookUpAfter(rounds: seq<Round>, ts: seq<Listed>, thread: nat) returns (r: Answer)
    ensures forall k :: 0 <= k < |ts| && ts[k].port == thread && (forall j :: 0 <= j < k ==> ts[j].port != thread) ==>
              r == if ts[k].pthread != 0 && ts[k].nameOk && ts[k].buffer != "" then Name(ts[k].buffer) else NoName
    ensures (forall j :: 0 <= j < |ts| ==> ts[j].port != thread) ==> r == NoName
  {
    var c := RunRounds(rounds + [Round(true, ts)]);
    hide Expected, ThreadName, Consistent, CrashSafe;
    RestIsConsistent(c);
    r := c.GetThreadName(thread);
    AtRestAnswers(c);
    ExpectedInFields(ts, thread);
  }

  lemma RestIsConsistent(c: Cache)
    requires c.Valid()
    ensures Consistent(c.Snapshot())
  {
    if c.tables.mach != Null { HoldsIsFine(c.Snapshot(), c.tables, c.listed, c.listed); }
  }

  // ----- what a lookup answers in the middle of an update

  // The index of the first thread with the handle, or the length.
  function First(ts: seq<Listed>, thread: nat): (k: nat)
    ensures k <= |ts| && (k < |ts| ==> ts[k].port == thread)
    ensures forall i :: 0 <= i < k ==> ts[i].port != thread
  {
    if ts == [] || ts[0].port == thread then 0 else 1 + First(ts[1..], thread)
  }

  lemma {:induction false} ExpectedIsFirst(ts: seq<Listed>, thread: nat)
    ensures Expected(ts, thread) == if First(ts, thread) < |ts| then NameOf(ts[First(ts, thread)]) else NoName
  {
    if ts != [] && ts[0].port != thread { ExpectedIsFirst(ts[1..], thread); }
  }

  lemma {:induction false} PairedLookup(w: World, hs: seq<Listed>, ns: seq<Listed>, thread: nat, i: nat)
    requires Pairs(w, hs, ns) && i <= w.count
    requires forall j :: 0 <= j < i ==> hs[j].port != thread
    ensures var k := First(hs[..w.count], thread);
            Lookup(w, w.names, thread, i) == if k < w.count then NameOf(ns[k]) else NoName
    decreases w.count - i
  {
    if i < w.count {
      assert hs[..w.count][i] == hs[i];
      if hs[i].port != thread { PairedLookup(w, hs, ns, thread, i + 1); }
    }
  }

  /** Among handles of one listing and names of another a lookup yields the name at the
      place of the handle.  That is the thread's own name if and only if the two
      listings have the same name at that place. */
  lemma PairedAnswerIsRightIff(w: World, hs: seq<Listed>, ns: seq<Listed>, thread: nat)
    requires Pairs(w, hs, ns)
    ensures var k := First(hs[..w.count], thread);
            && ThreadName(w, thread) == (if k < w.count then NameOf(ns[k]) else NoName)
            && (ThreadName(w, thread) == Expected(hs[..w.count], thread) <==>
                (k < w.count ==> NameOf(ns[k]) == NameOf(hs[k])))
  {
    PairedLookup(w, hs, ns, thread, 0);
    ExpectedIsFirst(hs[..w.count], thread);
  }

  /** At every micro-step of an update from one listing to another a lookup answers
      from the old listing, or from the new one, or with the old name at the place of
      the new handle; at the first and the last it is right about the threads it can
      find. */
  lemma StagedAnswers(w: World, was: seq<Listed>, next: seq<Listed>, thread: nat)
    requires Staged(w, was, next)
    ensures var n := w.count;
            || (n <= |was| && ThreadName(w, thread) == Expected(was[..n], thread))
            || (n <= |next| && ThreadName(w, thread) == Expected(next[..n], thread))
            || (n <= |was| && n <= |next| && First(next[..n], thread) < n &&
                ThreadName(w, thread) == NameOf(was[First(next[..n], thread)]))
  {
    if w.count == 0 {
      assert was[..0] == [];
    } else if Pairs(w, was, was) {
      PairedAnswerIsRightIff(w, was, was, thread);
    } else if Pairs(w, next, next) {
      PairedAnswerIsRightIff(w, next, next, thread);
    } else {
      PairedAnswerIsRightIff(w, next, was, thread);
      ExpectedIsFirst(next[..w.count], thread);
    }
  }

  lemma OneForAnother(w: World, t: Listed, u: Listed)
    requires Pairs(w, [u], [t]) && w.count == 1
    ensures ThreadName(w, u.port) == NameOf(t)
  {
    PairedAnswerIsRightIff(w, [u], [t], u.port);
    assert [u][..1] == [u];
    hide Pairs, ThreadName;
  }

  lemma ListsSomeone(c: Cache)
    requires c.Valid() && c.listed != []
    ensures c.tables.mach != Null
  {}

  /** The middle stage is real: when one thread takes the place of another in the
      listing, a crash between the swaps finds it under the other's name. */
  method CrashBetweenSwaps(t: Listed, u: Listed) returns (now: World, seen: seq<World>)
    ensures ThreadName(now, u.port) == NameOf(u)
    ensures exists k :: 0 <= k < |seen| && ThreadName(seen[k], u.port) == NameOf(t)
  {
    var c := new Cache();
    ghost var none := c.UpdateThreadList(true, [t]);
    ListsSomeone(c);
    ghost var mid := c.UpdateThreadList(true, [u]);
    now, seen := c.Snapshot(), c.seen;
    hide Pairs, Staged, ThreadName, QueueName, NothingElse, CrashSafe;
    OneForAnother(seen[mid], t, u);
    AtRestAnswers(c);
    assert Expected([u], u.port) == NameOf(u);
  }

  lemma StringsApart(heap: map<nat, Block>, p: Tables, ts: seq<Listed>)
    requires Holds(heap, p, ts, |ts|)
    ensures HoldsBasics(heap, p)
    ensures {p.mach.id, p.pthreads.id, p.names.id, p.queues.id} !! StringIds(heap[p.names.id].strings)
    ensures p.queues.id in heap && heap[p.queues.id].Strings? && StringIds(heap[p.queues.id].strings) == {}
    ensures p.mach.id in heap && p.pthreads.id in heap
    ensures p.mach.id != p.pthreads.id && p.mach.id != p.names.id && p.mach.id != p.queues.id
    ensures p.pthreads.id != p.names.id && p.pthreads.id != p.queues.id && p.names.id != p.queues.id
    ensures OwnStrings(heap[p.names.id].strings) && OwnStrings(heap[p.queues.id].strings)
    ensures |heap[p.names.id].strings| == |ts| == |heap[p.queues.id].strings|
  {
    var ns := heap[p.names.id].strings;
    forall id | id in StringIds(ns) ensures id in heap && heap[id].Chars? {
      var j :| 0 <= j < |ns| && ns[j] == To(id);
    }
  }

  lemma BlocksAreLive(heap: map<nat, Block>, p: Tables, ts: seq<Listed>)
    requires Holds(heap, p, ts, |ts|)
    ensures HoldsBasics(heap, p) && Blocks(heap, p) <= heap.Keys
  {
    var ns := heap[p.names.id].strings;
    forall id | id in StringIds(ns) ensures id in heap {
      var j :| 0 <= j < |ns| && ns[j] == To(id);
    }
  }

  lemma ExtendsItself(heap: map<nat, Block>)
    ensures Extends(heap, heap)
  {}

  lemma InstallsSafely(heap: map<nat, Block>, p: Tables, ts: seq<Listed>)
    requires Holds(heap, p, ts, |ts|)
    ensures p.mach.To? && p.pthreads.To? && p.names.To? && p.queues.To?
    ensures p.mach.id in heap && heap[p.mach.id].Handles? && |heap[p.mach.id].handles| == |ts|
    ensures p.pthreads.id in heap && heap[p.pthreads.id].Handles? && |heap[p.pthreads.id].handles| == |ts|
    ensures p.names.id in heap && heap[p.names.id].Strings? && |heap[p.names.id].strings| == |ts| && StringsLive(heap, p.names.id)
    ensures p.queues.id in heap && heap[p.queues.id].Strings? && |heap[p.queues.id].strings| == |ts| && StringsLive(heap, p.queues.id)
  {}

  // Tables p for `next` may take the place of those installed, if any, for `was`.
  ghost predicate Replaces(w0: World, p: Tables, was: seq<Listed>, next: seq<Listed>) {
    && Consistent(w0) && Holds(w0.heap, p, next, |next|)
    && if w0.mach == Null then w0.count == 0
       else Holds(w0.heap, Tables(w0.mach, w0.pthreads, w0.names, w0.queues), was, |was|) && w0.count == |was|
  }

  // Old and new pointers in any mixture are safe below both lengths.
  lemma MixedSafe(w0: World, p: Tables, was: seq<Listed>, next: seq<Listed>, w: World)
    requires Replaces(w0, p, was, next) && w.heap == w0.heap
    requires w.count <= w0.count && w.count <= |next|
    requires (w.mach == w0.mach && w.names == w0.names) || (w.mach == p.mach && (w.names == w0.names || w.names == p.names))
    requires w.pthreads == w0.pthreads || w.pthreads == p.pthreads
    requires w.queues == w0.queues || w.queues == p.queues
    ensures Fine(w, was, next)
  {
    hide Filled;
    InstallsSafely(w0.heap, p, next);
  }

  lemma MixedPairs(w0: World, p: Tables, was: seq<Listed>, next: seq<Listed>, w: World)
    requires Replaces(w0, p, was, next) && w.heap == w0.heap && w0.mach != Null
    requires w.count <= w0.count && w.count <= |next| && w.mach == p.mach && w.names == w0.names
    ensures Pairs(w, next, was) && w0.count == |was|
  {
    hide Filled, Consistent;
  }

  lemma ReplacedIsFine(w0: World, p: Tables, was: seq<Listed>, next: seq<Listed>, w: World)
    requires Replaces(w0, p, was, next) && w.heap == w0.heap && w.count == |next|
    requires p == Tables(w.mach, w.pthreads, w.names, w.queues)
    ensures Fine(w, was, next)
  {
    HoldsIsFine(w, p, was, next);
  }

  lemma HoldsIsFine(w: World, p: Tables, was: seq<Listed>, ts: seq<Listed>)
    requires Holds(w.heap, p, ts, |ts|) && w.count == |ts|
    requires p == Tables(w.mach, w.pthreads, w.names, w.queues)
    ensures Fine(w, was, ts) && Fine(w, ts, was)
  {
    hide Filled;
    InstallsSafely(w.heap, p, ts);
  }

  // Tables survive whatever happens outside their own blocks.
  lemma HoldsKept(heap0: map<nat, Block>, heap: map<nat, Block>, p: Tables, ts: seq<Listed>)
    requires Holds(heap0, p, ts, |ts|)
    requires forall id :: id in Blocks(heap0, p) ==> id in heap && id in heap0 && heap[id] == heap0[id]
    ensures Holds(heap, p, ts, |ts|) && Blocks(heap, p) == Blocks(heap0, p)
  {
    var ns := heap0[p.names.id].strings;
    forall j | 0 <= j < |ns| && ns[j].To? ensures ns[j].id in Blocks(heap0, p) { assert ns[j] in ns; }
  }

  lemma NoStrings(ns: seq<Ptr>)
    requires ns == []
    ensures StringIds(ns) == {}
  {}

  lemma TailStrings(ns: seq<Ptr>, i: nat)
    requires i < |ns|
    requires OwnStrings(ns)
    ensures StringIds(ns[i..]) == (if ns[i].To? then {ns[i].id} else {}) + StringIds(ns[i + 1..])
    ensures ns[i].To? ==> ns[i].id !in StringIds(ns[i + 1..]) && ns[i].id in StringIds(ns)
    ensures StringIds(ns[i + 1..]) <= StringIds(ns)
  {
    assert ns[i..] == [ns[i]] + ns[i + 1..];
    assert forall j :: i + 1 <= j < |ns| ==> ns[j] == ns[i + 1..][j - i - 1];
  }


  lemma EmptyTables(heap: map<nat, Block>, p: Tables, ts: seq<Listed>)
    requires p.mach.To? && p.pthreads.To? && p.names.To? && p.queues.To?
    requires p.mach.id != p.pthreads.id && p.mach.id != p.names.id && p.mach.id != p.queues.id
    requires p.pthreads.id != p.names.id && p.pthreads.id != p.queues.id && p.names.id != p.queues.id
    requires p.mach.id in heap && heap[p.mach.id] == Handles(Ports(ts))
    requires p.pthreads.id in heap && heap[p.pthreads.id] == Handles(PThreads(ts))
    requires p.queues.id in heap && heap[p.queues.id] == Strings(seq(|ts|, i => Null))
    requires p.names.id in heap && heap[p.names.id] == Strings(seq(|ts|, i => Null))
    ensures Holds(heap, p, ts, 0)
  {}

  predicate HoldsBasics(heap: map<nat, Block>, p: Tables) {
    p.mach.To? && p.pthreads.To? && p.names.To? && p.queues.To? && p.names.id in heap && heap[p.names.id].Strings?
  }

  lemma HoldsNames(heap: map<nat, Block>, p: Tables, ts: seq<Listed>, n: nat)
    requires Holds(heap, p, ts, n)
    ensures HoldsBasics(heap, p) && |heap[p.names.id].strings| == |ts|
    ensures forall i :: n <= i < |ts| ==> heap[p.names.id].strings[i] == Null
  {}

  lemma HoldsSkip(heap: map<nat, Block>, p: Tables, ts: seq<Listed>, n: nat)
    requires n < |ts| && !HasName(ts[n]) && Holds(heap, p, ts, n)
    ensures Holds(heap, p, ts, n + 1)
  {}

  lemma HoldsNext(heap: map<nat, Block>, p: Tables, ts: seq<Listed>, n: nat, s: nat)
    requires n < |ts| && HasName(ts[n]) && Holds(heap, p, ts, n) && s !in heap
    ensures HoldsBasics(heap, p)
    ensures var ns := heap[p.names.id].strings;
            |ns| == |ts| &&
            Holds(heap[s := Chars(ts[n].buffer)][p.names.id := Strings(ns[n := To(s)])], p, ts, n + 1)
  {}

  predicate Extends(heap0: map<nat, Block>, heap: map<nat, Block>) {
    forall id :: id in heap0 ==> id in heap && heap[id] == heap0[id]
  }

  // A reader does not notice what happens outside the blocks it knew.
  lemma KeptSafe(w0: World, w: World, was: seq<Listed>, next: seq<Listed>)
    requires Fine(w0, was, next) && Extends(w0.heap, w.heap) && w == w0.(heap := w.heap)
    ensures Fine(w, was, next)
  {
    ConsistentKept(w0, w);
    if w0.count > 0 {
      if Pairs(w0, was, was) { PairsKept(w0, w, was, was); }
      if Pairs(w0, next, was) { PairsKept(w0, w, next, was); }
      if Pairs(w0, next, next) { PairsKept(w0, w, next, next); }
    }
  }

  lemma ConsistentKept(w0: World, w: World)
    requires Consistent(w0) && Extends(w0.heap, w.heap) && w == w0.(heap := w.heap)
    ensures Consistent(w)
  {}

  lemma PairsKept(w0: World, w: World, hs: seq<Listed>, ns: seq<Listed>)
    requires Pairs(w0, hs, ns) && Extends(w0.heap, w.heap) && w == w0.(heap := w.heap)
    ensures Pairs(w, hs, ns)
  {}

  lemma SlotFilled(ns: seq<Ptr>, i: nat, s: nat)
    requires i < |ns| && ns[i] == Null
    ensures StringIds(ns[i := To(s)]) == StringIds(ns) + {s}
  {
    var ms := ns[i := To(s)];
    assert ms[i] == To(s);
    forall id | id in StringIds(ns) ensures id in StringIds(ms) {
      var j :| 0 <= j < |ns| && ns[j] == To(id);
      assert ms[j] == To(id);
    }
  }
}
