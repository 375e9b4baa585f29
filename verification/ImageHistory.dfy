/**
  What the binary image cache means, without pointers or threads: the list of
  cached images as a sequence of entries, and the loader's own view of which
  images are loaded.  The main result says exactly when the two agree.
 */
module ImageHistory {

  // One list node as iteration sees it.
  datatype Entry = Entry(addr: nat, available: bool)

  // Notifications from the dynamic loader.
  datatype Event = Load(addr: nat) | Unload(addr: nat)

  // The static first node: address zero, never available.
  const ROOT: Entry := Entry(0, false)

  // Removal flips the first entry with a matching address, dead or alive.
  function MarkFirst(es: seq<Entry>, a: nat): (r: seq<Entry>)
    ensures |r| == |es|
  {
    if es == [] then []
    else if es[0].addr == a then [Entry(a, false)] + es[1..]
    else [es[0]] + MarkFirst(es[1..], a)
  }

  // The addresses iteration calls back on, in list order.
  function Listed(es: seq<Entry>): seq<nat> {
    if es == [] then []
    else (if es[0].available then [es[0].addr] else []) + Listed(es[1..])
  }

  function Apply(es: seq<Entry>, e: Event): seq<Entry> {
    match e
    case Load(a) => es + [Entry(a, true)]
    case Unload(a) => MarkFirst(es, a)
  }

  // The cache after a history of events on a freshly started cache.
  function Cached(h: seq<Event>): seq<Entry> {
    if h == [] then [ROOT] else Apply(Cached(h[..|h|-1]), h[|h|-1])
  }

  function Without(s: seq<nat>, a: nat): seq<nat> {
    if s == [] then []
    else (if s[0] == a then [] else [s[0]]) + Without(s[1..], a)
  }

  // The loader's view: the loaded addresses in load order.
  function Loaded(h: seq<Event>): seq<nat> {
    if h == [] then []
    else
      var before := Loaded(h[..|h|-1]);
      match h[|h|-1]
      case Load(a) => before + [a]
      case Unload(a) => Without(before, a)
  }

  // The loader maps an image at a non-null address that is not already in use.
  predicate WellFormed(h: seq<Event>) {
    h == [] ||
    (WellFormed(h[..|h|-1]) &&
     (h[|h|-1].Load? ==> h[|h|-1].addr != 0 && h[|h|-1].addr !in Loaded(h[..|h|-1])))
  }

  // How often the image at address a was unloaded while loaded.
  function Unloads(h: seq<Event>, a: nat): nat {
    if h == [] then 0
    else
      Unloads(h[..|h|-1], a) +
      if h[|h|-1] == Unload(a) && a in Loaded(h[..|h|-1]) then 1 else 0
  }

  function Loads(h: seq<Event>, a: nat): nat {
    if h == [] then 0
    else Loads(h[..|h|-1], a) + if h[|h|-1] == Load(a) then 1 else 0
  }

  // The availability flags of the entries at address a, in list order.
  function Flags(es: seq<Entry>, a: nat): seq<bool> {
    if es == [] then []
    else (if es[0].addr == a then [es[0].available] else []) + Flags(es[1..], a)
  }

  // ----- how the list operations act on the per-address view

  // Marking replaces the entry at the first matching index.
  lemma {:induction false} MarkFirstAt(es: seq<Entry>, k: nat, a: nat)
    requires k <= |es| && forall i :: 0 <= i < k ==> es[i].addr != a
    requires k < |es| ==> es[k].addr == a
    ensures MarkFirst(es, a) == if k < |es| then es[k := Entry(a, false)] else es
  {
    if k > 0 { MarkFirstAt(es[1..], k - 1, a); }
  }

  lemma {:induction false} FlagsAppend(es: seq<Entry>, e: Entry, a: nat)
    ensures Flags(es + [e], a) == Flags(es, a) + if e.addr == a then [e.available] else []
  {
    var t, last := es + [e], if e.addr == a then [e.available] else [];
    if es == [] {
      assert t[0] == e && t[1..] == [];
    } else {
      assert t[0] == es[0] && t[1..] == es[1..] + [e];
      FlagsAppend(es[1..], e, a);
      var first, rest := if es[0].addr == a then [es[0].available] else [], Flags(es[1..], a);
      assert Flags(t, a) == first + (rest + last) && Flags(es, a) == first + rest;
      hide Flags;
      Regroup(first, rest, last);
    }
  }

  lemma Regroup<T>(x: seq<T>, y: seq<T>, z: seq<T>)
    ensures x + (y + z) == (x + y) + z
  {}

  lemma {:induction false} FlagsMark(es: seq<Entry>, a: nat, b: nat)
    ensures Flags(MarkFirst(es, a), b) ==
            if a == b && Flags(es, b) != [] then [false] + Flags(es, b)[1..] else Flags(es, b)
  {
    if es != [] {
      var m := MarkFirst(es, a);
      if es[0].addr == a {
        assert m[1..] == es[1..];
        if a == b {
          assert Flags(es, b) == [es[0].available] + Flags(es[1..], b);
        }
      } else {
        assert m[1..] == MarkFirst(es[1..], a);
        FlagsMark(es[1..], a, b);
      }
    }
  }

  lemma {:induction false} ListedAppend(es: seq<Entry>, e: Entry)
    ensures Listed(es + [e]) == Listed(es) + if e.available then [e.addr] else []
  {
    var t, last := es + [e], if e.available then [e.addr] else [];
    if es == [] {
      assert t[0] == e && t[1..] == [];
    } else {
      assert t[0] == es[0] && t[1..] == es[1..] + [e];
      ListedAppend(es[1..], e);
      var first, rest := if es[0].available then [es[0].addr] else [], Listed(es[1..]);
      assert Listed(t) == first + (rest + last) && Listed(es) == first + rest;
      hide Listed;
      Regroup(first, rest, last);
    }
  }

  // Marking is a deletion when the only entry at the address is the live one,
  // and is invisible when there is none or only a dead one.
  lemma {:induction false} ListedMark(es: seq<Entry>, a: nat)
    requires |Flags(es, a)| <= 1
    ensures Listed(MarkFirst(es, a)) ==
            if Flags(es, a) == [true] then Without(Listed(es), a) else Listed(es)
    ensures Flags(es, a) != [true] ==> a !in Listed(es)
  {
    if es != [] {
      var m := MarkFirst(es, a);
      var rest := Flags(es[1..], a);
      if es[0].addr == a {
        assert m[1..] == es[1..];
        assert Flags(es, a) == [es[0].available] + rest;
        assert |rest| == 0;
        ListedMark(es[1..], a);
        WithoutAbsent(Listed(es[1..]), a);
        assert Flags(es, a) == [es[0].available];
      } else {
        assert m[1..] == MarkFirst(es[1..], a);
        ListedMark(es[1..], a);
        assert Flags(es, a) == Flags(es[1..], a);
        if es[0].available {
          assert Listed(es)[1..] == Listed(es[1..]);
        } else {
          assert Listed(es) == Listed(es[1..]) && Listed(m) == Listed(m[1..]);
        }
      }
    }
  }

  lemma {:induction false} WithoutAbsent(s: seq<nat>, a: nat)
    requires a !in s
    ensures Without(s, a) == s
  {
    if s != [] { WithoutAbsent(s[1..], a); }
  }

  lemma {:induction false} WithoutMembers(s: seq<nat>, a: nat, b: nat)
    ensures b in Without(s, a) <==> b in s && b != a
  {
    if s != [] { WithoutMembers(s[1..], a, b); }
  }

  // ----- the shape of the cache after any well-formed history

  // After u effective unloads the first of the entries is dead and the rest are
  // alive; there is one entry for each load.
  predicate Shape(flags: seq<bool>, u: nat, loaded: bool) {
    |flags| == u + (if loaded then 1 else 0) &&
    forall i :: 0 <= i < |flags| ==> (flags[i] <==> i > 0 || u == 0)
  }

  // Loading adds a live entry; unloading kills the first, which is alive only if
  // there was no unload before.
  lemma ShapeMoves(flags: seq<bool>, u: nat, loaded: bool)
    requires Shape(flags, u, loaded)
    ensures !loaded ==> Shape(flags + [true], u, true)
    ensures Shape(if flags != [] then [false] + flags[1..] else flags, u + if loaded then 1 else 0, false)
  {}

  lemma {:induction false} CacheShape(h: seq<Event>, a: nat)
    requires WellFormed(h) && a != 0
    ensures Shape(Flags(Cached(h), a), Unloads(h, a), a in Loaded(h))
    ensures Loads(h, a) == Unloads(h, a) + if a in Loaded(h) then 1 else 0
  {
    if h == [] {
      assert [ROOT][1..] == [];
    } else {
      hide Shape, Flags, Apply, Without;
      var p, e := h[..|h|-1], h[|h|-1];
      var flags := Flags(Cached(p), a);
      CacheShape(p, a);
      ShapeMoves(flags, Unloads(p, a), a in Loaded(p));
      FlagsApply(Cached(p), e, a);
      if e.Unload? { WithoutMembers(Loaded(p), e.addr, a); }
    }
  }

  // An event touches the flags of its own address only.
  lemma FlagsApply(es: seq<Entry>, e: Event, a: nat)
    ensures var flags := Flags(es, a);
            Flags(Apply(es, e), a) ==
            if e.addr != a then flags
            else if e.Load? then flags + [true]
            else if flags != [] then [false] + flags[1..] else flags
  {
    match e
    case Load(b) => FlagsAppend(es, Entry(b, true), a);
    case Unload(b) => FlagsMark(es, b, a);
    hide Flags, MarkFirst;
  }

  lemma {:induction false} ListedCount(es: seq<Entry>, a: nat)
    ensures multiset(Listed(es))[a] == multiset(Flags(es, a))[true]
  {
    if es != [] {
      assert es == [es[0]] + es[1..];
      ListedCount(es[1..], a);
    }
  }

  lemma {:induction false} LoadedDistinct(h: seq<Event>, a: nat)
    requires WellFormed(h)
    ensures multiset(Loaded(h))[a] <= 1
  {
    if h != [] {
      LoadedDistinct(h[..|h|-1], a);
      match h[|h|-1]
      case Load(b) =>
      case Unload(b) => WithoutCount(Loaded(h[..|h|-1]), b, a);
    }
  }

  lemma {:induction false} WithoutCount(s: seq<nat>, a: nat, b: nat)
    ensures multiset(Without(s, a))[b] <= multiset(s)[b]
  {
    if s != [] {
      assert s == [s[0]] + s[1..];
      WithoutCount(s[1..], a, b);
    }
  }

  // With u unloads and no repeat the number of live entries is u + loaded - 1.
  lemma {:induction false} LiveCount(flags: seq<bool>, u: nat, loaded: bool)
    requires Shape(flags, u, loaded)
    ensures multiset(flags)[true] == if u == 0 then |flags| else |flags| - 1
  {
    if flags != [] {
      assert flags == [flags[0]] + flags[1..];
      AllTrue(flags[1..]);
    }
  }

  lemma {:induction false} AllTrue(flags: seq<bool>)
    requires forall i :: 0 <= i < |flags| ==> flags[i]
    ensures multiset(flags)[true] == |flags|
  {
    if flags != [] {
      assert flags == [flags[0]] + flags[1..];
      AllTrue(flags[1..]);
    }
  }

  // One direction: a second unload of an address leaves a stale live entry.
  lemma {:induction false} StaleAfterTwoUnloads(h: seq<Event>, a: nat)
    requires WellFormed(h) && Unloads(h, a) >= 2
    ensures multiset(Listed(Cached(h)))[a] > multiset(Loaded(h))[a]
  {
    NeverZero(h);
    UnloadedWasLoaded(h, a);
    CacheShape(h, a);
    LiveCount(Flags(Cached(h), a), Unloads(h, a), a in Loaded(h));
    ListedCount(Cached(h), a);
    LoadedDistinct(h, a);
  }

  lemma {:induction false} NeverZero(h: seq<Event>)
    requires WellFormed(h)
    ensures 0 !in Loaded(h)
  {
    if h != [] {
      NeverZero(h[..|h|-1]);
      if h[|h|-1].Unload? { WithoutMembers(Loaded(h[..|h|-1]), h[|h|-1].addr, 0); }
    }
  }

  lemma {:induction false} UnloadedWasLoaded(h: seq<Event>, a: nat)
    requires WellFormed(h) && Unloads(h, a) > 0
    ensures a != 0
  {
    NeverZero(h[..|h|-1]);
    if Unloads(h[..|h|-1], a) > 0 { UnloadedWasLoaded(h[..|h|-1], a); }
  }

  // Other direction, by following the history.
  lemma {:induction false} AgreesWithoutReuse(h: seq<Event>)
    requires WellFormed(h)
    requires forall a :: Unloads(h, a) <= 1
    ensures Listed(Cached(h)) == Loaded(h)
  {
    if h == [] {
      assert [ROOT][1..] == [];
    } else {
      var p, e := h[..|h|-1], h[|h|-1];
      forall a ensures Unloads(p, a) <= 1 { assert Unloads(p, a) <= Unloads(h, a); }
      AgreesWithoutReuse(p);
      match e
      case Load(a) => ListedAppend(Cached(p), Entry(a, true));
      case Unload(a) =>
        assert p + [Unload(a)] == h;
        UnloadAgrees(p, a);
    }
  }

  lemma UnloadAgrees(p: seq<Event>, a: nat)
    requires WellFormed(p) && Listed(Cached(p)) == Loaded(p)
    requires forall b :: Unloads(p + [Unload(a)], b) <= 1
    ensures Listed(MarkFirst(Cached(p), a)) == Without(Loaded(p), a)
  {
    var h := p + [Unload(a)];
    assert h[..|h|-1] == p && Unloads(h, a) <= 1;
    NeverZero(p);
    if a == 0 {
      RootFirst(p);
      WithoutAbsent(Loaded(p), a);
      assert MarkFirst(Cached(p), 0) == Cached(p);
    } else {
      CacheShape(p, a);
      var f := Flags(Cached(p), a);
      assert |f| <= 1;
      assert f == [] || f == [f[0]];
      ListedMark(Cached(p), a);
      if a !in Loaded(p) { WithoutAbsent(Loaded(p), a); }
    }
  }

  lemma {:induction false} RootFirst(h: seq<Event>)
    ensures |Cached(h)| >= 1 && Cached(h)[0] == ROOT
  {
    if h != [] { RootFirst(h[..|h|-1]); }
  }

  /** Iteration lists exactly the loaded images, in load order, if and only if no
      address has been unloaded a second time after being used again. */
  lemma CacheAgreesIff(h: seq<Event>)
    requires WellFormed(h)
    ensures Listed(Cached(h)) == Loaded(h) <==> forall a :: Unloads(h, a) <= 1
  {
    if forall a :: Unloads(h, a) <= 1 {
      AgreesWithoutReuse(h);
    } else {
      var a :| Unloads(h, a) > 1;
      StaleAfterTwoUnloads(h, a);
    }
  }

  /** In particular the cache is exact while no address is ever loaded twice. */
  lemma CacheAgreesWhenLoadedOnce(h: seq<Event>)
    requires WellFormed(h)
    requires forall a :: Loads(h, a) <= 1
    ensures Listed(Cached(h)) == Loaded(h)
  {
    forall a ensures Unloads(h, a) <= 1 {
      if a == 0 {
        if Unloads(h, 0) > 0 { UnloadedWasLoaded(h, 0); }
      } else {
        CacheShape(h, a);
      }
    }
    AgreesWithoutReuse(h);
  }

  /** The failing family is real: load, unload, load, unload of one address. */
  lemma ReusedAddressGoesStale(a: nat)
    requires a != 0
    ensures var h := [Load(a), Unload(a), Load(a), Unload(a)];
            WellFormed(h) && Loaded(h) == [] && a in Listed(Cached(h))
  {
    var h0: seq<Event> := [];
    var h1, h2 := h0 + [Load(a)], h0 + [Load(a)] + [Unload(a)];
    var h3, h4 := h2 + [Load(a)], h2 + [Load(a)] + [Unload(a)];
    Extend(h0, Load(a), a);
    Extend(h1, Unload(a), a);
    Extend(h2, Load(a), a);
    Extend(h3, Unload(a), a);
    assert h4 == [Load(a), Unload(a), Load(a), Unload(a)];
    assert Loaded(h2) == [] && Unloads(h4, a) == 2;
    StaleAfterTwoUnloads(h4, a);
  }

  lemma Extend(h: seq<Event>, e: Event, a: nat)
    ensures WellFormed(h + [e]) <==> WellFormed(h) && (e.Load? ==> e.addr != 0 && e.addr !in Loaded(h))
    ensures Loaded(h + [e]) == if e.Load? then Loaded(h) + [e.addr] else Without(Loaded(h), e.addr)
    ensures Unloads(h + [e], a) == Unloads(h, a) + if e == Unload(a) && a in Loaded(h) then 1 else 0
  {
    assert (h + [e])[..|h|] == h;
  }
}
