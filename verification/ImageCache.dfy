/**
  The binary image cache as the code has it: a static root node, a tail pointer
  that is null while the cache is stopped, and nodes linked in place.  Each
  operation is proved against the pure list operations of ImageHistory.
  Interleavings of these operations are the subject of ImageProtocol.
 */
module ImageCache {
  import opened ImageHistory

  class Node {
    var addr: nat
    var available: bool
    var next: Node?

    constructor (addr: nat, available: bool)
      ensures this.addr == addr && this.available == available && next == null
    {
      this.addr, this.available, next := addr, available, null;
    }
  }

  class Cache {
    const root: Node
    var tail: Node?
    var addedCallback: bool     // is a callback registered?
    var removedCallback: bool
    var added: seq<nat>         // images passed to the added callback
    var removed: seq<nat>       // images passed to the removed callback
    var freed: seq<Node>        // calls of free
    ghost var chain: seq<Node>

    ghost predicate Valid()
      reads this, chain
    {
      && |chain| > 0 && chain[0] == root
      && (forall i, j :: 0 <= i < j < |chain| ==> chain[i] != chain[j])
      && (forall i {:trigger chain[i].next} :: 0 <= i < |chain| ==>
            chain[i].next == if i + 1 < |chain| then chain[i + 1] else null)
      && (if tail == null then |chain| == 1 else tail == chain[|chain| - 1])
      && root.addr == 0 && !root.available
      && (forall n :: n in chain ==> n !in freed)
    }

    ghost function Entries(): (es: seq<Entry>)
      reads this, chain
      ensures |es| == |chain|
    {
      seq(|chain|, i requires 0 <= i < |chain| reads this, chain =>
        Entry(chain[i].addr, chain[i].available))
    }

    constructor ()
      ensures Valid() && fresh(chain) && tail == null
      ensures Entries() == [ROOT] && added == removed == [] && freed == []
    {
      root := new Node(0, false);
      tail, addedCallback, removedCallback, added, removed, freed := null, false, false, [], [], [];
      new;
      chain := [root];
    }

    // Starting an already started cache changes nothing; otherwise the list is emptied.
    method Start()
      requires Valid()
      modifies this`tail, root
      ensures Valid() && tail != null && chain == old(chain)
      ensures Entries() == old(Entries())
    {
      if tail != null { return; }
      tail := root;
      root.next := null;
    }

    // The two stores that list a new node.
    method Append(node: Node)
      requires Valid() && tail != null && node !in chain && node !in freed && node.next == null
      modifies this`tail, this`chain, tail
      ensures Valid() && tail != null && chain == old(chain) + [node]
      ensures Entries() == old(Entries()) + [Entry(node.addr, node.available)]
    {
      tail.next := node;
      tail := tail.next;
      chain := chain + [node];
    }

    // dyld reports an image; `resolved` is the outcome of looking the header up.
    method Added(header: nat, resolved: bool)
      requires Valid()
      modifies this, chain
      ensures Valid() && fresh(set n | n in chain && n !in old(chain)) && (tail == null) == (old(tail) == null)
      ensures var appended := old(tail) != null && resolved;
              && Entries() == (if appended then Apply(old(Entries()), Load(header)) else old(Entries()))
              && added == old(added) + (if appended && addedCallback then [header] else [])
      ensures removed == old(removed) && freed == old(freed)
      ensures addedCallback == old(addedCallback) && removedCallback == old(removedCallback)
    {
      if tail == null { return; }
      if !resolved { return; }
      var node: Node? := new Node(header, true);
      if tail != null {
        Append(node);
      } else {
        node := null;
      }
      if node != null && addedCallback {
        added := added + [node.addr];
      }
    }

    // dyld reports that an image is gone; no lock is taken.
    method Removed(header: nat)
      requires Valid()
      modifies this`removed, chain
      ensures Valid() && chain == old(chain) && tail == old(tail)
      ensures Entries() == Apply(old(Entries()), Unload(header))
      ensures removed == old(removed) +
              if removedCallback && (exists i :: 0 <= i < |chain| && chain[i].addr == header) then [header] else []
    {
      hide MarkFirst;
      var node: Node? := root;
      ghost var k := 0;
      ghost var es := Entries();
      while node != null
        invariant k <= |chain| && (if k < |chain| then node == chain[k] else node == null)
        invariant forall i :: 0 <= i < k ==> chain[i].addr != header
        invariant Valid() && Entries() == es && removed == old(removed)
        decreases |chain| - k
      {
        if node.addr == header {
          node.available := false;
          MarkFirstAt(es, k, header);
          assert Entries() == es[k := Entry(header, false)];
          assert chain[k].addr == header;
          if removedCallback {
            removed := removed + [node.addr];
          }
          return;
        }
        node := node.next;
        k := k + 1;
      }
      MarkFirstAt(es, k, header);
    }

    // Calls back on every available node while the cache is started.
    method Iterate() returns (called: seq<nat>)
      requires Valid()
      ensures called == Listed(Entries())
    {
      called := [];
      var node: Node? := root;
      ghost var k := 0;
      ghost var es := Entries();
      assert es[..0] == [];
      while node != null && tail != null
        invariant k <= |chain| && (if k < |chain| then node == chain[k] else node == null)
        invariant tail == null ==> k == 0
        invariant called == Listed(es[..k])
        decreases |chain| - k
      {
        assert es[..k + 1] == es[..k] + [es[k]];
        ListedAppend(es[..k], es[k]);
        if node.available {
          called := called + [node.addr];
        }
        node := node.next;
        k := k + 1;
      }
      if tail == null {
        assert es == [ROOT] && es[1..] == [];
      } else {
        assert es[..k] == es;
      }
    }

    // Later images are reported as they come, present ones immediately.
    method RegisterAddedCallback(present: bool)
      requires Valid()
      modifies this`addedCallback, this`added
      ensures Valid() && addedCallback == present && Entries() == old(Entries())
      ensures added == old(added) + if present then Listed(Entries()) else []
    {
      addedCallback := present;
      if present {
        var called := Iterate();
        ghost var es := Entries();
        added := added + called;
        assert Entries() == es;
      }
    }

    method RegisterRemovedCallback(present: bool)
      requires Valid()
      modifies this`removedCallback
      ensures Valid() && removedCallback == present && Entries() == old(Entries())
    {
      removedCallback := present;
    }

    // free: the node must not have been freed before.
    method Free(n: Node)
      requires n !in freed
      modifies `freed
      ensures freed == old(freed) + [n]
    {
      freed := freed + [n];
    }

    // Empties the list, closes the cache and frees every node that was listed, each
    // once and in list order; a second stop changes nothing.
    method Stop()
      requires Valid()
      modifies this, root
      ensures Valid() && tail == null && chain == [root]
      ensures Entries() == [ROOT]
      ensures freed == old(freed) + old(chain)[1..]
      ensures added == old(added) && removed == old(removed)
      ensures addedCallback == old(addedCallback) && removedCallback == old(removedCallback)
    {
      if tail == null {
        assert chain == [root];
        return;
      }
      var node := root.next;
      root.next := null;
      tail := null;
      ghost var k := 1;
      while node != null
        invariant 1 <= k <= |chain| && (if k < |chain| then node == chain[k] else node == null)
        invariant chain == old(chain) && root == chain[0] && root.next == null && tail == null
        invariant root.addr == 0 && !root.available
        invariant forall i {:trigger chain[i].next} :: 1 <= i < |chain| ==>
            chain[i].next == if i + 1 < |chain| then chain[i + 1] else null
        invariant freed == old(freed) + chain[1..k]
        invariant added == old(added) && removed == old(removed)
        invariant addedCallback == old(addedCallback) && removedCallback == old(removedCallback)
        decreases |chain| - k
      {
        var next := node.next;
        assert chain[1..k + 1] == chain[1..k] + [node];
        Free(node);
        node := next;
        k := k + 1;
      }
      assert chain[1..k] == chain[1..];
      chain := [root];
    }
  }

  // A driver of one loader event on a started cache.
  method Deliver(c: Cache, e: Event)
    requires c.Valid() && c.tail != null
    modifies c, c.chain
    ensures c.Valid() && c.tail != null && fresh(set n | n in c.chain && n !in old(c.chain))
    ensures c.Entries() == Apply(old(c.Entries()), e)
  {
    match e
    case Load(a) => c.Added(a, true);
    case Unload(a) => c.Removed(a);
  }

  /** Whole histories: after start, any well-formed history and an iteration, the
      caller has been given the loaded images exactly when no address was unloaded twice. */
  method Replay(h: seq<Event>) returns (called: seq<nat>)
    requires WellFormed(h)
    ensures called == Loaded(h) <==> forall a :: Unloads(h, a) <= 1
  {
    var c := new Cache();
    c.Start();
    assert h[..0] == [];
    for i := 0 to |h|
      invariant c.Valid() && c.tail != null && fresh(c) && fresh(c.chain)
      invariant c.Entries() == Cached(h[..i])
    {
      assert h[..i + 1][..|h[..i + 1]| - 1] == h[..i];
      Deliver(c, h[i]);
    }
    assert h[..|h|] == h;
    called := c.Iterate();
    CacheAgreesIff(h);
  }
}
