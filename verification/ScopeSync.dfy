/**
  The mirror of the SDK's scope that crash reports are written from: nine string
  fields and a ring of breadcrumbs, changed in place so that a crash between any
  two steps finds only null or live strings.
 */
module ScopeSync {
  import opened Wrappers
  import opened ScopeReport

  // ----- what the operations mean

  // The scope as its user sees it; `adds` are the breadcrumbs since the last
  // configuration or clearing, null ones included.
  datatype Mirror = Mirror(fields: map<Field, Option<string>>, configured: bool, max: nat, adds: seq<Option<string>>)

  datatype Op =
    | Set(f: Field, text: Option<string>)
    | Add(text: Option<string>)
    | ClearCrumbs
    | Configure(max: int)
    | Clear
    | Reset

  function Blank(): map<Field, Option<string>> { map f: Field | f in FIELDS :: None }

  // Clearing forgets every field but the trace context.
  function Cleared(fields: map<Field, Option<string>>): map<Field, Option<string>> {
    map f: Field | f in FIELDS :: if f == TraceContext && f in fields then fields[f] else None
  }

  function Apply(m: Mirror, op: Op): Mirror {
    match op
    case Set(f, text) => m.(fields := m.fields[f := text])
    case Add(text) => if m.configured && m.max >= 1 then m.(adds := m.adds + [text]) else m
    case ClearCrumbs => Emptied(m)
    case Configure(n) => m.(configured := true, max := if n >= 0 then n else 0, adds := [])
    case Clear => Emptied(m).(fields := Cleared(m.fields))
    case Reset => Emptied(m).(fields := Cleared(m.fields), configured := false)
  }

  function Emptied(m: Mirror): Mirror { if m.configured then m.(adds := []) else m }

  // The last n of the adds, padded with nulls in front.
  function Window(adds: seq<Option<string>>, n: nat): (r: seq<Option<string>>)
    ensures |r| == n
  {
    (seq(n, i => None) + adds)[|adds|..]
  }

  function Last(adds: seq<Option<string>>, n: nat): seq<Option<string>> {
    if |adds| <= n then adds else adds[|adds| - n..]
  }

  function ExpectedFields(m: Mirror, fs: seq<Field>): seq<(Field, string)> {
    if fs == [] then []
    else
      (if fs[0] in m.fields && m.fields[fs[0]].Some? then [(fs[0], m.fields[fs[0]].value)] else []) +
      ExpectedFields(m, fs[1..])
  }

  // What the report should say.
  function Expected(m: Mirror): Report {
    var crumbs := if m.configured then NonNull(Last(m.adds, m.max)) else [];
    Report(ExpectedFields(m, FIELDS), if crumbs == [] then None else Some(crumbs))
  }

  lemma {:induction false} NullsAreSilent(n: nat)
    ensures NonNull(seq(n, i => None)) == []
  {
    if n > 0 {
      var s: seq<Option<string>> := seq(n, i => None);
      assert s[1..] == seq(n - 1, i => None);
      NullsAreSilent(n - 1);
    }
  }

  lemma WindowIsLast(adds: seq<Option<string>>, n: nat)
    ensures NonNull(Window(adds, n)) == NonNull(Last(adds, n))
  {
    var nulls: seq<Option<string>> := seq(n, i => None);
    if |adds| <= n {
      assert Window(adds, n) == nulls[|adds|..] + adds;
      assert nulls[|adds|..] == seq(n - |adds|, i => None);
      NullsAreSilent(n - |adds|);
      NonNullConcat(nulls[|adds|..], adds);
    } else {
      assert Window(adds, n) == Last(adds, n);
    }
  }

  lemma WindowSlides(adds: seq<Option<string>>, x: Option<string>, n: nat)
    requires n >= 1
    ensures Window(adds + [x], n) == Window(adds, n)[1..] + [x]
  {}

  // ----- one store, free or allocation at a time

  function Put(w: World, p: Place, v: Ptr): World
    requires Exists(w, p)
  {
    match p
    case AtField(f) => w.(fields := w.fields[f := v])
    case AtSlot(i) => w.(heap := w.heap[w.crumbs.id := Slots(w.heap[w.crumbs.id].slots[i := v])])
  }

  // The same variables exist, and all but possibly p read the same text.
  ghost predicate OnlyAt(w0: World, w: World, p: Place) {
    && w.crumbs == w0.crumbs && w.maxCrumbs == w0.maxCrumbs && w.current == w0.current
    && HasRing(w) == HasRing(w0)
    && (forall q: Place :: Exists(w, q) == Exists(w0, q))
    && (forall q: Place :: Exists(w0, q) && q != p ==> TextAt(w, q) == TextAt(w0, q))
  }

  ghost predicate Unreferenced(w: World, id: nat) {
    w.crumbs != To(id) && forall q: Place :: Exists(w, q) ==> At(w, q) != To(id)
  }

  lemma PutSafe(w: World, p: Place, v: Ptr)
    requires Consistent(w) && Exists(w, p)
    requires v == Null || (v.To? && v.id in w.heap && w.heap[v.id].Chars? && Unreferenced(w, v.id))
    ensures Consistent(Put(w, p, v)) && OnlyAt(w, Put(w, p, v), p)
    ensures Exists(Put(w, p, v), p) && At(Put(w, p, v), p) == v
    ensures TextAt(Put(w, p, v), p) == if v == Null then None else Some(w.heap[v.id].text)
  {
    var w' := Put(w, p, v);
    forall q: Place ensures Exists(w', q) <==> Exists(w, q) {}
    forall q: Place | Exists(w, q)
      ensures At(w', q) == if q == p then v else At(w, q)
    {}
  }

  lemma FreeSafe(w: World, p: Place, id: nat)
    requires Consistent(w) && Unreferenced(w, id)
    ensures Consistent(w.(heap := w.heap - {id})) && OnlyAt(w, w.(heap := w.heap - {id}), p)
    ensures Exists(w, p) ==> Exists(w.(heap := w.heap - {id}), p) && At(w.(heap := w.heap - {id}), p) == At(w, p)
  {
    var w' := w.(heap := w.heap - {id});
    forall q: Place ensures Exists(w', q) <==> Exists(w, q) {}
    forall q: Place | Exists(w, q) ensures At(w', q) == At(w, q) {}
  }

  lemma AllocSafe(w: World, p: Place, id: nat, b: Block)
    requires Consistent(w) && id !in w.heap
    ensures var w' := w.(heap := w.heap[id := b]);
            && Consistent(w') && OnlyAt(w, w', p) && Unreferenced(w', id)
            && (Exists(w, p) ==> Exists(w', p) && At(w', p) == At(w, p))
  {
    var w' := w.(heap := w.heap[id := b]);
    forall q: Place ensures Exists(w', q) <==> Exists(w, q) {}
    forall q: Place | Exists(w, q) ensures At(w', q) == At(w, q) {}
  }

  // Following several changes at the same place.
  lemma OnlyAtThen(w0: World, w1: World, w2: World, p: Place)
    requires OnlyAt(w0, w1, p) && OnlyAt(w1, w2, p)
    ensures OnlyAt(w0, w2, p)
  {
    forall q: Place | Exists(w0, q) && q != p ensures Exists(w2, q) && TextAt(w2, q) == TextAt(w0, q) {
      assert Exists(w1, q) && TextAt(w1, q) == TextAt(w0, q);
    }
  }

  function Fill(p: Ptr, n: nat): (r: seq<Ptr>)
    ensures |r| == n && forall i :: 0 <= i < n ==> r[i] == p
  {
    seq(n, i => p)
  }

  class Scope {
    var heap: map<nat, Block>
    var fields: map<Field, Ptr>
    var crumbs: Ptr
    var maxCrumbs: int
    var current: int
    var top: nat                     // identities below top have been allocated
    var released: multiset<nat>      // calls of free
    var seen: seq<World>             // the world after each micro-step
    ghost var mirror: Mirror         // what the scope is meant to hold

    function Snapshot(): World
      reads `heap, `fields, `crumbs, `maxCrumbs, `current
    {
      World(heap, fields, crumbs, maxCrumbs, current)
    }

    // Every allocated block is live or has been freed exactly once.
    ghost predicate Ledger()
      reads `heap, `top, `released
    {
      forall id: nat :: (if id in heap then 1 else 0) + released[id] == if id < top then 1 else 0
    }

    ghost predicate Ok()
      reads `heap, `fields, `crumbs, `maxCrumbs, `current, `top, `released
    {
      Ledger() && Consistent(Snapshot())
    }

    ghost predicate Valid()
      reads `heap, `fields, `crumbs, `maxCrumbs, `current, `top, `released, `mirror
    {
      Ok() && Reflects(Snapshot(), mirror)
    }

    // No crash since index `from` would have made the report touch bad memory.
    ghost predicate SafeSince(from: nat)
      reads `seen
    {
      from <= |seen| && forall k :: from <= k < |seen| ==> CrashSafe(seen[k])
    }

    constructor ()
      ensures Valid() && mirror == Mirror(Blank(), false, 0, []) && seen == []
    {
      heap, crumbs, maxCrumbs, current, top, released, seen := map[], Null, 0, 0, 0, multiset{}, [];
      fields := map f: Field | f in FIELDS :: Null;
      mirror := Mirror(Blank(), false, 0, []);
      new;
      AllFields();
    }

    // All worlds seen from index `from` on differ from w0 at p alone.
    ghost predicate OnlySeen(w0: World, p: Place, from: nat)
      reads `seen
    {
      from <= |seen| && forall k :: from <= k < |seen| ==> Consistent(seen[k]) && OnlyAt(w0, seen[k], p)
    }

    // ----- micro-steps

    method Store(p: Place, v: Ptr)
      requires Exists(Snapshot(), p)
      modifies `heap, `fields, `seen
      ensures Snapshot() == Put(old(Snapshot()), p, v) && seen == old(seen) + [Snapshot()]
      ensures heap.Keys == old(heap).Keys
    {
      match p {
        case AtField(f) => fields := fields[f := v];
        case AtSlot(i) => heap := heap[crumbs.id := Slots(heap[crumbs.id].slots[i := v])];
      }
      seen := seen + [Snapshot()];
    }

    method Free(id: nat)
      requires Ledger() && id in heap
      modifies `heap, `released, `seen
      ensures Ledger() && Snapshot() == old(Snapshot()).(heap := old(heap) - {id})
      ensures seen == old(seen) + [Snapshot()]
    {
      heap, released := heap - {id}, released + multiset{id};
      seen := seen + [Snapshot()];
    }

    method Alloc(b: Block) returns (id: nat)
      requires Ledger()
      modifies `heap, `top, `seen
      ensures Ledger() && id !in old(heap) && Snapshot() == old(Snapshot()).(heap := old(heap)[id := b])
      ensures seen == old(seen) + [Snapshot()]
    {
      id := top;
      assert (if id in heap then 1 else 0) + released[id] == 0;
      heap, top := heap[id := b], top + 1;
      seen := seen + [Snapshot()];
    }

    method Write(id: nat, b: Block)
      requires Ledger() && id in heap
      modifies `heap, `seen
      ensures Ledger() && Snapshot() == old(Snapshot()).(heap := old(heap)[id := b])
      ensures seen == old(seen) + [Snapshot()]
    {
      heap := heap[id := b];
      seen := seen + [Snapshot()];
    }

    // setField: null the variable, free the old string, store a copy of the new.
    method SetField(p: Place, text: Option<string>)
      requires Ok() && Exists(Snapshot(), p)
      modifies `heap, `fields, `top, `released, `seen
      ensures Ok() && OnlyAt(old(Snapshot()), Snapshot(), p) && Exists(Snapshot(), p)
      ensures TextAt(Snapshot(), p) == text
      ensures old(seen) <= seen && OnlySeen(old(Snapshot()), p, |old(seen)|)
    {
      hide Consistent, OnlyAt, Exists;
      ghost var w0 := Snapshot();
      NullAndFree(p);
      NullText(Snapshot(), p);
      if text.Some? {
        Strdup(p, text.value, w0);
      }
    }

    method NullAndFree(p: Place)
      requires Ok() && Exists(Snapshot(), p)
      modifies `heap, `fields, `released, `seen
      ensures Ok() && OnlyAt(old(Snapshot()), Snapshot(), p) && Exists(Snapshot(), p)
      ensures At(Snapshot(), p) == Null
      ensures old(seen) <= seen && OnlySeen(old(Snapshot()), p, |old(seen)|)
    {
      hide Consistent, OnlyAt, Unreferenced, Put;
      ghost var w0 := Snapshot();
      var local := At(Snapshot(), p);
      PlaceIs(w0, p);
      PutSafe(w0, p, Null);
      Store(p, Null);
      if local != Null {
        ghost var w1 := Snapshot();
        NowUnreferenced(w0, p, local.id);
        FreeSafe(w1, p, local.id);
        Free(local.id);
        OnlyAtThen(w0, w1, Snapshot(), p);
      }
    }

    // *field = strdup(text), for a variable that is null.
    method Strdup(p: Place, text: string, ghost w0: World)
      requires Ok() && Exists(Snapshot(), p) && At(Snapshot(), p) == Null && OnlyAt(w0, Snapshot(), p)
      modifies `heap, `fields, `top, `seen
      ensures Ok() && OnlyAt(w0, Snapshot(), p) && Exists(Snapshot(), p)
      ensures TextAt(Snapshot(), p) == Some(text)
      ensures old(seen) <= seen && OnlySeen(w0, p, |old(seen)|)
    {
      hide Consistent, OnlyAt;
      ghost var w2 := Snapshot();
      var s := Alloc(Chars(text));
      AllocSafe(w2, p, s, Chars(text));
      ghost var w3 := Snapshot();
      OnlyAtThen(w0, w2, w3, p);
      PutSafe(w3, p, To(s));
      Store(p, To(s));
      OnlyAtThen(w0, w3, Snapshot(), p);
    }

    // ----- the operations

    // The nine setters.
    method Set(f: Field, text: Option<string>)
      requires Valid()
      modifies `heap, `fields, `top, `released, `seen, `mirror
      ensures Valid() && mirror == Apply(old(mirror), Op.Set(f, text))
      ensures old(seen) <= seen && SafeSince(|old(seen)|)
    {
      hide Consistent, OnlyAt;
      FieldExists(Snapshot(), f);
      ghost var w0 := Snapshot();
      SetField(AtField(f), text);
      ReflectsSet(w0, Snapshot(), mirror, f, text);
      mirror := Apply(mirror, Op.Set(f, text));
      SeenIsSafe(|old(seen)|);
    }

    lemma SeenIsSafe(from: nat)
      requires from <= |seen| && forall k :: from <= k < |seen| ==> Consistent(seen[k])
      ensures SafeSince(from)
    {
      forall k | from <= k < |seen| ensures CrashSafe(seen[k]) { ConsistentReport(seen[k]); }
    }

    method AddBreadcrumb(text: Option<string>)
      requires Valid()
      modifies `heap, `fields, `current, `top, `released, `seen, `mirror
      ensures Valid() && mirror == Apply(old(mirror), Add(text))
      ensures old(seen) <= seen && SafeSince(|old(seen)|)
      ensures forall k :: |old(seen)| <= k < |seen| ==> KeepsNewest(old(mirror), seen[k])
    {
      hide Consistent, OnlyAt, KeepsNewest, CrashSafe;
      if crumbs == Null || maxCrumbs < 1 {
        RingOrNone(Snapshot());
        return;
      }
      ghost var w0, from := Snapshot(), |seen|;
      RingOrNone(w0);
      SetField(AtSlot(current), text);
      ghost var w1 := Snapshot();
      forall k | from <= k < |seen| ensures KeepsNewest(old(mirror), seen[k]) {
        StillNewest(w0, seen[k], mirror);
      }
      current := (current + 1) % maxCrumbs;
      seen := seen + [Snapshot()];
      Advanced(w1);
      ReflectsAdd(w0, w1, Snapshot(), mirror, text);
      mirror := Apply(mirror, Add(text));
      SeenIsSafe(from);
    }

    method ClearBreadcrumbs()
      requires Valid()
      modifies `heap, `fields, `current, `top, `released, `seen, `mirror
      ensures Valid() && mirror == Apply(old(mirror), Op.ClearCrumbs)
      ensures old(seen) <= seen && SafeSince(|old(seen)|)
    {
      hide Consistent, OnlyAt, CrashSafe, Window;
      ghost var w0, from := Snapshot(), |seen|;
      RingOrNone(w0);
      if crumbs == Null || maxCrumbs < 1 {
        EmptyWindow(w0, mirror);
        mirror := Apply(mirror, Op.ClearCrumbs);
        return;
      }
      NullSlots();
      ghost var w1 := Snapshot();
      RingOrNone(w1);
      Moved(w1, 0);
      current := 0;
      seen := seen + [Snapshot()];
      ReflectsCleared(w0, w1, Snapshot(), mirror);
      mirror := Apply(mirror, Op.ClearCrumbs);
      SeenIsSafe(from);
    }

    // The loop: every slot of the ring is nulled and its string freed.
    method NullSlots()
      requires Ok() && crumbs != Null
      modifies `heap, `fields, `top, `released, `seen
      ensures Ok() && FieldsAs(old(Snapshot()), Snapshot()) && old(seen) <= seen
      ensures forall k :: |old(seen)| <= k < |seen| ==> Consistent(seen[k])
      ensures forall j: nat :: j < maxCrumbs ==> Exists(Snapshot(), AtSlot(j)) && TextAt(Snapshot(), AtSlot(j)) == None
    {
      hide Consistent, OnlyAt, Ledger;
      ghost var w0 := Snapshot();
      var i := 0;
      while i < maxCrumbs
        invariant 0 <= i && (i <= maxCrumbs || i == 0) && Ok() && FieldsAs(w0, Snapshot()) && old(seen) <= seen
        invariant forall k :: |old(seen)| <= k < |seen| ==> Consistent(seen[k])
        invariant forall j: nat :: j < i ==> Exists(Snapshot(), AtSlot(j)) && TextAt(Snapshot(), AtSlot(j)) == None
        decreases maxCrumbs - i
      {
        ghost var w := Snapshot();
        RingOrNone(w);
        SlotExists(w, i);
        SetField(AtSlot(i), None);
        OneMoreNull(w0, w, Snapshot(), i);
        i := i + 1;
      }
    }

    /** The storage is freed before it is replaced and installed before it is
        initialised, so a crash in between is harmless exactly when the new ring keeps
        nothing.  The strings of the old ring are not freed.  A negative maximum, for
        which malloc is asked for some other number of slots, keeps nothing either.
        When malloc yields null the stores of zero fault unless there are none to
        make; until then only the freed old ring is a danger. */
    method ConfigureBreadcrumbs(max: int, granted: bool, room: nat) returns (faults: bool)
      requires Valid()
      modifies `heap, `crumbs, `maxCrumbs, `current, `top, `released, `seen, `mirror
      ensures Valid() && KeepsStrings(old(heap), heap)
      ensures faults <==> !granted && (if max >= 0 then max else room) > 0
      ensures granted ==> mirror == Apply(old(mirror), Op.Configure(max))
      ensures !granted ==> mirror == old(mirror).(configured := false)
      ensures old(seen) <= seen && (SafeSince(|old(seen)|) <==> max <= 0 || (!granted && old(crumbs) == Null))
    {
      hide Consistent, CrashSafe, Reflects, Ledger;
      ghost var w0, from := Snapshot(), |seen|;
      RingOrNone(w0);
      var slots := if max >= 0 then max else room;
      Shrink(max, w0);
      faults := !granted && slots > 0;
      if granted { Renew(max, slots, w0, from); } else { DoWithout(max, w0, from); }
    }

    // What has been seen since a configuration began.
    ghost predicate Configuring(max: int, w0: World, from: nat)
      reads `heap, `fields, `maxCrumbs, `current, `seen
    {
      && from <= |seen| && maxCrumbs == max && current == 0
      && KeepsStrings(w0.heap, heap) && fields == w0.fields
      && forall k :: from <= k < |seen| ==> FieldsKept(w0, seen[k]) && seen[k].maxCrumbs == max
    }

    // malloc has returned memory.
    method Renew(max: int, slots: nat, ghost w0: World, ghost from: nat)
      requires Ledger() && Configuring(max, w0, from) && (max >= 0 ==> slots == max)
      requires Consistent(w0) && Reflects(w0, mirror)
      modifies `heap, `crumbs, `top, `seen, `mirror
      ensures Valid() && mirror == Apply(old(mirror), Op.Configure(max)) && KeepsStrings(w0.heap, heap)
      ensures old(seen) <= seen && (SafeSince(from) <==> max <= 0)
    {
      hide Consistent, CrashSafe, Reflects, Ledger;
      ghost var dirty := Install(max, slots, w0);
      Configured(w0, Snapshot(), mirror, crumbs.id, max, slots);
      mirror := Apply(mirror, Op.Configure(max));
      if max > 0 {
        GarbageIsUnsafe(seen[dirty], crumbs.id);
      } else {
        forall k | from <= k < |seen| ensures CrashSafe(seen[k]) { EmptyRingIsSafe(w0, seen[k]); }
      }
    }

    // malloc has returned null.
    method DoWithout(max: int, ghost w0: World, ghost from: nat)
      requires Ledger() && Configuring(max, w0, from) && from < |seen|
      requires Consistent(w0) && Reflects(w0, mirror)
      requires forall k :: from <= k < |seen| ==> seen[k].crumbs == w0.crumbs
      requires seen[|seen| - 1] == Snapshot() && (crumbs == Null || (crumbs.To? && crumbs.id !in heap))
      modifies `crumbs, `seen, `mirror
      ensures Valid() && mirror == old(mirror).(configured := false)
      ensures old(seen) <= seen && (SafeSince(from) <==> max <= 0 || w0.crumbs == Null)
    {
      hide Consistent, CrashSafe, Reflects, Ledger;
      ghost var freed := |seen| - 1;
      crumbs := Null;
      seen := seen + [Snapshot()];
      NotConfigured(w0, Snapshot(), mirror);
      mirror := mirror.(configured := false);
      if max > 0 && w0.crumbs != Null {
        DanglingIsUnsafe(seen[freed]);
      } else {
        forall k | from <= k < |seen| ensures CrashSafe(seen[k]) { EmptyRingIsSafe(w0, seen[k]); }
      }
    }

    // Set the new size and free the old ring.
    method Shrink(max: int, ghost w0: World)
      requires Ledger() && Snapshot() == w0 && (crumbs == Null || HasRing(w0))
      modifies `heap, `maxCrumbs, `current, `released, `seen
      ensures Ledger() && maxCrumbs == max && current == 0 && KeepsStrings(w0.heap, heap)
      ensures old(seen) <= seen && |seen| > |old(seen)| && seen[|seen| - 1] == Snapshot()
      ensures crumbs.To? ==> crumbs.id !in heap
      ensures forall k :: |old(seen)| <= k < |seen| ==>
                FieldsKept(w0, seen[k]) && seen[k].maxCrumbs == max && seen[k].crumbs == w0.crumbs
    {
      maxCrumbs := max;
      seen := seen + [Snapshot()];
      current := 0;
      seen := seen + [Snapshot()];
      if crumbs != Null {
        Free(crumbs.id);
      }
    }

    // Install a new ring and only then write nulls to it.
    method Install(max: int, slots: nat, ghost w0: World) returns (ghost dirty: nat)
      requires Ledger() && maxCrumbs == max && KeepsStrings(w0.heap, heap) && fields == w0.fields
      modifies `heap, `crumbs, `top, `seen
      ensures Ledger() && KeepsStrings(w0.heap, heap) && crumbs.To?
      ensures crumbs.id in heap && heap[crumbs.id] == Slots(Fill(Null, slots))
      ensures old(seen) <= seen
      ensures forall k :: |old(seen)| <= k < |seen| ==> FieldsKept(w0, seen[k]) && seen[k].maxCrumbs == max
      ensures |old(seen)| <= dirty < |seen| && seen[dirty].crumbs == crumbs && crumbs.id in seen[dirty].heap
      ensures seen[dirty].heap[crumbs.id] == Slots(Fill(Garbage, slots))
    {
      hide Ledger;
      var ring := Alloc(Slots(Fill(Garbage, slots)));
      crumbs := To(ring);
      seen := seen + [Snapshot()];
      dirty := |seen| - 1;
      Write(ring, Slots(Fill(Null, slots)));
    }

    method Clear()
      requires Valid()
      modifies `heap, `fields, `current, `top, `released, `seen, `mirror
      ensures Valid() && mirror == Apply(old(mirror), Op.Clear)
      ensures old(seen) <= seen && SafeSince(|old(seen)|)
    {
      hide Consistent, CrashSafe, Reflects, Ledger;
      ghost var m0 := mirror;
      AllMirrored(Snapshot(), mirror);
      Set(User, None);
      Set(Dist, None);
      Set(Context, None);
      Set(Environment, None);
      Set(Tags, None);
      Set(Extras, None);
      Set(Fingerprint, None);
      Set(Level, None);
      ClearedFields(m0.fields);
      ClearBreadcrumbs();
    }

    // Used by tests: clear, and forget the storage without freeing it.
    method Reset()
      requires Valid()
      modifies `heap, `fields, `crumbs, `current, `top, `released, `seen, `mirror
      ensures Valid() && mirror == Apply(old(mirror), Op.Reset)
      ensures old(seen) <= seen && SafeSince(|old(seen)|)
    {
      hide Consistent, CrashSafe;
      Clear();
      ghost var w := Snapshot();
      crumbs := Null;
      seen := seen + [Snapshot()];
      WithoutRing(w, mirror);
      ConsistentReport(Snapshot());
      mirror := mirror.(configured := false);
    }

    // The scope section of a crash report, run while nothing else does.
    method WriteScope() returns (r: Report)
      requires Valid()
      ensures r == Expected(mirror)
    {
      hide Consistent, Reflects, Expected, FieldsOf, CrumbsOf;
      ReportIsExpected(Snapshot(), mirror);
      var fs := WriteFields(FIELDS);
      var list := WriteCrumbs();
      r := Report(fs, list);
    }

    // The fields that are set, in order.
    method WriteFields(order: seq<Field>) returns (fs: seq<(Field, string)>)
      requires FieldsOf(Snapshot(), order).Some?
      ensures Some(fs) == FieldsOf(Snapshot(), order)
    {
      ghost var w := Snapshot();
      fs := [];
      var i := 0;
      assert order[0..] == order;
      while i < |order|
        invariant 0 <= i <= |order|
        invariant FieldsOf(w, order[i..]).Some?
        invariant FieldsOf(w, order).value == fs + FieldsOf(w, order[i..]).value
      {
        assert order[i..][0] == order[i] && order[i..][1..] == order[i + 1..];
        var read := ReadField(Snapshot(), order[i]);
        if read.Present? { fs := fs + [(order[i], read.text)]; }
        i := i + 1;
      }
      assert order[i..] == [] && fs + [] == fs;
    }

    // The first loop over the ring: is there anything to write?
    method AnyBreadcrumb() returns (any: bool)
      requires AnyCrumb(Snapshot(), 0).Some?
      ensures AnyCrumb(Snapshot(), 0) == Some(any)
    {
      var i := 0;
      while i < maxCrumbs
        invariant 0 <= i && (i <= maxCrumbs || i == 0) && AnyCrumb(Snapshot(), 0) == AnyCrumb(Snapshot(), i)
      {
        if ReadSlot(Snapshot(), i) != Absent { return true; }
        i := i + 1;
      }
      return false;
    }

    // The second loop, starting at the current slot.
    method WriteCrumbs() returns (list: Option<seq<string>>)
      requires CrumbsOf(Snapshot()).Some?
      ensures Some(list) == CrumbsOf(Snapshot())
    {
      hide AnyCrumb;
      if crumbs == Null { return None; }
      var any := AnyBreadcrumb();
      if !any { return None; }
      var texts := [];
      var i := 0;
      while i < maxCrumbs
        invariant 0 <= i && (i <= maxCrumbs || i == 0) && CrumbsFrom(Snapshot(), i).Some?
        invariant CrumbsFrom(Snapshot(), 0).value == texts + CrumbsFrom(Snapshot(), i).value
      {
        var read := ReadSlot(Snapshot(), (current + i) % maxCrumbs);
        if read.Present? { texts := texts + [read.text]; }
        i := i + 1;
      }
      assert texts + [] == texts;
      list := Some(texts);
    }
  }

  lemma NullText(w: World, p: Place)
    requires Exists(w, p) && At(w, p) == Null
    ensures TextAt(w, p) == None
  {}

  lemma PlaceIs(w: World, p: Place)
    requires Consistent(w) && Exists(w, p)
    ensures At(w, p) == Null || (At(w, p).To? && At(w, p).id in w.heap && w.heap[At(w, p).id].Chars?)
  {
    assert ReadAt(w, At(w, p)) != Bad;
  }

  // Once its only variable is null nothing refers to a string.
  lemma NowUnreferenced(w: World, p: Place, id: nat)
    requires Consistent(w) && Exists(w, p) && At(w, p) == To(id)
    ensures Unreferenced(Put(w, p, Null), id)
  {
    var w' := Put(w, p, Null);
    PlaceIs(w, p);
    forall q: Place | Exists(w', q) ensures At(w', q) != To(id) {
      assert Exists(w, q);
      assert q != p ==> At(w', q) == At(w, q);
    }
  }

  // ----- how the world reflects the mirror

  ghost predicate Reflects(w: World, m: Mirror)
    requires Consistent(w)
  {
    && (forall f: Field :: f in m.fields && Exists(w, AtField(f)) && TextAt(w, AtField(f)) == m.fields[f])
    && (m.configured <==> w.crumbs != Null)
    && (m.configured ==> HasRing(w) && m.max == Size(w) && Rotated(w) == Window(m.adds, m.max))
  }

  lemma AllFields()
    ensures forall f: Field :: f in FIELDS
  {
    forall f: Field ensures f in FIELDS {
      match f
      case User => assert FIELDS[0] == f;
      case Dist => assert FIELDS[1] == f;
      case Context => assert FIELDS[2] == f;
      case TraceContext => assert FIELDS[3] == f;
      case Environment => assert FIELDS[4] == f;
      case Tags => assert FIELDS[5] == f;
      case Extras => assert FIELDS[6] == f;
      case Fingerprint => assert FIELDS[7] == f;
      case Level => assert FIELDS[8] == f;
    }
  }

  lemma FieldExists(w: World, f: Field)
    requires Consistent(w)
    ensures Exists(w, AtField(f))
  {}

  lemma RingOrNone(w: World)
    requires Consistent(w)
    ensures w.crumbs != Null ==> HasRing(w) && (w.maxCrumbs >= 1 ==> 0 <= w.current < w.maxCrumbs && Exists(w, AtSlot(w.current)))
  {}

  // A change at a field leaves the ring as it reads.
  lemma RingUntouched(w: World, w': World, p: Place)
    requires OnlyAt(w, w', p) && HasRing(w) && p.AtField?
    ensures Rotated(w') == Rotated(w)
  {
    forall i | 0 <= i < Size(w) ensures Rotated(w')[i] == Rotated(w)[i] {
      assert Exists(w, AtSlot((w.current + i) % w.maxCrumbs));
    }
  }

  lemma ReflectsSet(w: World, w': World, m: Mirror, f: Field, text: Option<string>)
    requires Consistent(w) && Reflects(w, m) && Consistent(w') && OnlyAt(w, w', AtField(f))
    requires Exists(w', AtField(f)) && TextAt(w', AtField(f)) == text
    ensures Reflects(w', Apply(m, Set(f, text)))
  {
    if m.configured { RingUntouched(w, w', AtField(f)); }
    forall g: Field ensures Exists(w', AtField(g)) && (g != f ==> TextAt(w', AtField(g)) == m.fields[g]) {
      assert Exists(w, AtField(g));
    }
  }

  // The pre-state's newest breadcrumbs, one fewer than the ring holds.
  function Newest(m: Mirror): seq<string>
    requires m.max >= 1
  {
    NonNull(Window(m.adds, m.max)[1..])
  }

  // The report of w holds the newest breadcrumbs in order, with at most one more.
  ghost predicate KeepsNewest(m: Mirror, w: World) {
    m.configured && m.max >= 1 && CrashSafe(w) &&
    var list := if ReportOf(w).value.crumbs == None then [] else ReportOf(w).value.crumbs.value;
    exists a, b :: |a| + |b| <= 1 && list == a + Newest(m) + b
  }

  lemma OnlyCurrent(w0: World, w: World)
    requires HasRing(w0) && w0.maxCrumbs >= 1 && OnlyAt(w0, w, AtSlot(w0.current))
    ensures HasRing(w) && w.maxCrumbs == w0.maxCrumbs && Rotated(w)[1..] == Rotated(w0)[1..]
    ensures Rotated(w)[0] == TextAt(w, AtSlot(w0.current))
  {
    forall i | 1 <= i < w0.maxCrumbs ensures Rotated(w)[i] == Rotated(w0)[i] {
      Wrap(w0.current, i, w0.maxCrumbs);
      assert Exists(w0, AtSlot((w0.current + i) % w0.maxCrumbs));
    }
    Wrap(w0.current, 0, w0.maxCrumbs);
  }

  lemma StillNewest(w0: World, w: World, m: Mirror)
    requires Consistent(w0) && Reflects(w0, m) && w0.crumbs != Null && w0.maxCrumbs >= 1
    requires Consistent(w) && OnlyAt(w0, w, AtSlot(w0.current))
    ensures KeepsNewest(m, w)
  {
    OnlyCurrent(w0, w);
    ConsistentReport(w);
    var first := Rotated(w)[..1];
    assert Rotated(w) == first + Rotated(w)[1..];
    NonNullConcat(first, Rotated(w)[1..]);
    assert first[1..] == [];
    assert Emitted(w) == NonNull(first) + Newest(m) + [];
  }

  // Moving the current slot to c changes no variable.
  lemma Moved(w: World, c: int)
    requires Consistent(w) && HasRing(w) && (0 <= c < w.maxCrumbs || c == 0)
    ensures var w' := w.(current := c);
            && Consistent(w') && HasRing(w')
            && forall p: Place :: Exists(w', p) == Exists(w, p) && (Exists(w, p) ==> TextAt(w', p) == TextAt(w, p))
  {
    var w' := w.(current := c);
    assert HasRing(w');
    forall p: Place ensures Exists(w', p) == Exists(w, p) {}
    forall p: Place | Exists(w, p) ensures At(w', p) == At(w, p) && TextAt(w', p) == TextAt(w, p) {}
  }

  lemma Advanced(w: World)
    requires Consistent(w) && HasRing(w) && w.maxCrumbs >= 1
    ensures var w' := w.(current := (w.current + 1) % w.maxCrumbs);
            && Consistent(w') && HasRing(w')
            && Rotated(w') == Rotated(w)[1..] + [Rotated(w)[0]]
            && forall p: Place :: Exists(w', p) == Exists(w, p) && (Exists(w, p) ==> TextAt(w', p) == TextAt(w, p))
  {
    hide Consistent, HasRing, Exists, TextAt;
    var c, n := w.current, w.maxCrumbs;
    var w' := w.(current := (c + 1) % n);
    RingBounds(w);
    Moved(w, (c + 1) % n);
    forall i | 0 <= i < n ensures Rotated(w')[i] == (Rotated(w)[1..] + [Rotated(w)[0]])[i] {
      NextWrap(c, i, n);
    }
  }

  lemma RingBounds(w: World)
    requires HasRing(w) && w.maxCrumbs >= 1
    ensures 0 <= w.current < w.maxCrumbs
    ensures forall i: nat :: i < w.maxCrumbs ==> Exists(w, AtSlot(i))
  {}

  lemma NextWrap(c: nat, i: nat, n: nat)
    requires c < n && i < n
    ensures ((c + 1) % n + i) % n == (c + (if i + 1 < n then i + 1 else 0)) % n
  {
    var v, j := (c + 1) % n, if i + 1 < n then i + 1 else 0;
    if c + 1 < n { Wrap(c + 1, 0, n); } else { Wrap(c, 1 % n, n); OneMod(n); }
    assert v == if c + 1 < n then c + 1 else 0;
    Wrap(v, i, n);
    Wrap(c, j, n);
  }

  lemma OneMod(n: nat)
    requires n > 0
    ensures n % n == 0
  {}

  lemma ReflectsAdd(w0: World, w1: World, w2: World, m: Mirror, text: Option<string>)
    requires Consistent(w0) && Reflects(w0, m) && w0.crumbs != Null && w0.maxCrumbs >= 1
    requires Consistent(w1) && OnlyAt(w0, w1, AtSlot(w0.current))
    requires Exists(w1, AtSlot(w0.current)) && TextAt(w1, AtSlot(w0.current)) == text
    requires w2 == w1.(current := (w1.current + 1) % w1.maxCrumbs)
    ensures Consistent(w2) && Reflects(w2, Apply(m, Add(text)))
    ensures KeepsNewest(m, w2)
  {
    hide Consistent, HasRing, Exists, TextAt;
    OnlyCurrent(w0, w1);
    Advanced(w1);
    WindowSlides(m.adds, text, m.max);
    forall f: Field ensures Exists(w2, AtField(f)) && TextAt(w2, AtField(f)) == m.fields[f] {
      assert Exists(w0, AtField(f)) && Exists(w1, AtField(f));
      assert TextAt(w1, AtField(f)) == TextAt(w0, AtField(f));
    }
    EndsWith(m, w2, text);
  }

  lemma EndsWith(m: Mirror, w: World, text: Option<string>)
    requires Consistent(w) && HasRing(w) && m.configured && m.max >= 1
    requires Rotated(w) == Window(m.adds, m.max)[1..] + [text]
    ensures KeepsNewest(m, w)
  {
    hide Rotated, ReportOf, Window, Consistent, HasRing, CrashSafe;
    ConsistentReport(w);
    var last := NonNull([text]);
    NonNullConcat(Window(m.adds, m.max)[1..], [text]);
    assert |last| <= 1 by { assert [text][1..] == [] && NonNull([]) == []; }
    hide NonNull;
    assert Emitted(w) == [] + Newest(m) + last;
  }

  // ----- clearing and configuring

  ghost predicate FieldsAs(w0: World, w: World) {
    forall f: Field :: Exists(w0, AtField(f)) ==> Exists(w, AtField(f)) && TextAt(w, AtField(f)) == TextAt(w0, AtField(f))
  }

  lemma SlotExists(w: World, i: nat)
    requires HasRing(w) && i < w.maxCrumbs
    ensures Exists(w, AtSlot(i))
  {}

  lemma EmptyWindow(w: World, m: Mirror)
    requires Consistent(w) && Reflects(w, m) && (w.crumbs == Null || w.maxCrumbs < 1)
    ensures Reflects(w, Apply(m, ClearCrumbs))
  {
    if m.configured { assert Window(m.adds, 0) == Window([], 0); }
  }

  lemma OneMoreNull(w0: World, w: World, w': World, i: nat)
    requires FieldsAs(w0, w) && OnlyAt(w, w', AtSlot(i)) && HasRing(w) && i < w.maxCrumbs
    requires Exists(w', AtSlot(i)) && TextAt(w', AtSlot(i)) == None
    requires forall j: nat :: j < i ==> Exists(w, AtSlot(j)) && TextAt(w, AtSlot(j)) == None
    ensures FieldsAs(w0, w')
    ensures forall j: nat :: j < i + 1 ==> Exists(w', AtSlot(j)) && TextAt(w', AtSlot(j)) == None
  {
    forall f: Field | Exists(w0, AtField(f))
      ensures Exists(w', AtField(f)) && TextAt(w', AtField(f)) == TextAt(w0, AtField(f))
    {
      assert Exists(w, AtField(f));
    }
  }

  lemma ReflectsCleared(w0: World, w1: World, w2: World, m: Mirror)
    requires Consistent(w0) && Reflects(w0, m) && HasRing(w0) && w0.maxCrumbs >= 1
    requires Consistent(w1) && HasRing(w1) && w1.maxCrumbs == w0.maxCrumbs && FieldsAs(w0, w1)
    requires forall j: nat :: j < w1.maxCrumbs ==> Exists(w1, AtSlot(j)) && TextAt(w1, AtSlot(j)) == None
    requires w2 == w1.(current := 0)
    ensures Consistent(w2) && Reflects(w2, Apply(m, ClearCrumbs))
  {
    hide Consistent;
    Moved(w1, 0);
    forall i | 0 <= i < w2.maxCrumbs ensures Rotated(w2)[i] == Window([], m.max)[i] {
      Wrap(0, i, w2.maxCrumbs);
      assert Exists(w1, AtSlot(i));
    }
    assert Rotated(w2) == Window([], m.max);
    forall f: Field ensures Exists(w2, AtField(f)) && TextAt(w2, AtField(f)) == m.fields[f] {
      assert Exists(w0, AtField(f)) && Exists(w1, AtField(f));
    }
  }

  predicate KeepsStrings(heap0: map<nat, Block>, heap: map<nat, Block>) {
    forall id :: id in heap0 && heap0[id].Chars? ==> id in heap && heap[id] == heap0[id]
  }

  predicate FieldsKept(w0: World, w: World) { w.fields == w0.fields && KeepsStrings(w0.heap, w.heap) }

  // Memory that malloc returned and nobody wrote must not be read.
  lemma GarbageIsUnsafe(w: World, id: nat)
    requires w.crumbs == To(id) && w.maxCrumbs > 0 && id in w.heap
    requires w.heap[id] == Slots(Fill(Garbage, w.maxCrumbs))
    ensures !CrashSafe(w)
  {
    assert ReadSlot(w, 0) == Bad;
    assert AnyCrumb(w, 0) == None;
  }

  // A freed ring must not be read either.
  lemma DanglingIsUnsafe(w: World)
    requires w.crumbs.To? && w.maxCrumbs > 0 && w.crumbs.id !in w.heap
    ensures !CrashSafe(w)
  {
    assert ReadSlot(w, 0) == Bad;
    assert AnyCrumb(w, 0) == None;
  }

  // With an empty ring, or none, only the fields are read.
  lemma EmptyRingIsSafe(w0: World, w: World)
    requires Consistent(w0) && FieldsKept(w0, w) && (w.maxCrumbs <= 0 || w.crumbs == Null)
    ensures CrashSafe(w)
  {
    FieldsReadAs(w0, w, FIELDS);
  }

  lemma {:induction false} FieldsReadAs(w0: World, w: World, fs: seq<Field>)
    requires Consistent(w0) && FieldsKept(w0, w)
    ensures FieldsOf(w, fs).Some?
  {
    if fs != [] {
      assert Exists(w0, AtField(fs[0]));
      FieldsReadAs(w0, w, fs[1..]);
    }
  }

  lemma Configured(w0: World, w: World, m: Mirror, id: nat, max: int, slots: nat)
    requires Consistent(w0) && Reflects(w0, m)
    requires FieldsKept(w0, w) && w.crumbs == To(id) && w.maxCrumbs == max && w.current == 0
    requires id in w.heap && w.heap[id] == Slots(Fill(Null, slots)) && (max >= 0 ==> slots == max)
    ensures Consistent(w) && Reflects(w, Apply(m, Configure(max)))
  {
    assert HasRing(w);
    var n := Size(w);
    forall p: Place | Exists(w, p)
      ensures if p.AtField? then Exists(w0, p) && At(w, p) == At(w0, p) else At(w, p) == Null
    {}
    forall p: Place | Exists(w, p) ensures ReadAt(w, At(w, p)) != Bad {
      if p.AtField? { assert ReadAt(w0, At(w0, p)) != Bad; }
    }
    forall f: Field ensures Exists(w, AtField(f)) && TextAt(w, AtField(f)) == m.fields[f] {
      assert Exists(w0, AtField(f)) && ReadAt(w0, At(w0, AtField(f))) != Bad;
    }
    forall i | 0 <= i < n ensures Rotated(w)[i] == Window([], n)[i] {
      Wrap(0, i, n);
      assert Exists(w, AtSlot(i)) && At(w, AtSlot(i)) == Null;
      assert Rotated(w)[i] == TextAt(w, AtSlot((w.current + i) % w.maxCrumbs));
      assert Rotated(w)[i] == None && Window([], n)[i] == None;
    }
    assert Rotated(w) == Window([], n);
  }

  lemma NotConfigured(w0: World, w: World, m: Mirror)
    requires Consistent(w0) && Reflects(w0, m) && FieldsKept(w0, w) && w.crumbs == Null
    ensures Consistent(w) && Reflects(w, m.(configured := false))
  {
    forall p: Place | Exists(w, p) ensures Exists(w0, p) && At(w, p) == At(w0, p) && ReadAt(w, At(w, p)) != Bad {
      assert ReadAt(w0, At(w0, p)) != Bad;
    }
    forall f: Field ensures Exists(w, AtField(f)) && TextAt(w, AtField(f)) == m.fields[f] {
      assert Exists(w0, AtField(f)) && ReadAt(w0, At(w0, AtField(f))) != Bad;
    }
  }

  lemma AllMirrored(w: World, m: Mirror)
    requires Consistent(w) && Reflects(w, m)
    ensures forall f: Field :: f in m.fields
  {}

  lemma ClearedFields(fields: map<Field, Option<string>>)
    requires forall f: Field :: f in fields
    ensures fields[User := None][Dist := None][Context := None][Environment := None][Tags := None][Extras := None]
              [Fingerprint := None][Level := None] == Cleared(fields)
  {
    AllFields();
  }

  lemma WithoutRing(w: World, m: Mirror)
    requires Consistent(w) && Reflects(w, m)
    ensures var w' := w.(crumbs := Null);
            Consistent(w') && Reflects(w', m.(configured := false))
  {
    var w' := w.(crumbs := Null);
    forall p: Place | Exists(w', p) ensures Exists(w, p) && At(w', p) == At(w, p) {}
    forall f: Field ensures Exists(w', AtField(f)) && TextAt(w', AtField(f)) == m.fields[f] {
      assert Exists(w, AtField(f));
    }
  }

  // ----- main results

  lemma {:induction false} FieldsAreExpected(w: World, m: Mirror, fs: seq<Field>)
    requires Consistent(w) && Reflects(w, m)
    ensures FieldsOf(w, fs) == Some(ExpectedFields(m, fs))
  {
    if fs != [] {
      assert Exists(w, AtField(fs[0])) && ReadAt(w, At(w, AtField(fs[0]))) != Bad;
      FieldsAreExpected(w, m, fs[1..]);
      assert [] + ExpectedFields(m, fs[1..]) == ExpectedFields(m, fs[1..]);
    }
  }

  /** The report says what the history of operations means: the fields as last
      set, and the non-null entries of the last breadcrumbs, oldest first. */
  lemma ReportIsExpected(w: World, m: Mirror)
    requires Consistent(w) && Reflects(w, m)
    ensures ReportOf(w) == Some(Expected(m))
  {
    FieldsAreExpected(w, m, FIELDS);
    ConsistentReport(w);
    WindowIsLast(m.adds, m.max);
  }

  function History(ops: seq<Op>): Mirror {
    if ops == [] then Mirror(Blank(), false, 0, [])
    else Apply(History(ops[..|ops| - 1]), ops[|ops| - 1])
  }

  // ----- what a history means, told from its last operations

  predicate SetsField(op: Op, f: Field) { op.Set? && op.f == f }

  predicate Clears(op: Op) { op.Clear? || op.Reset? }

  // Operation i was the last to set field f, and nothing has cleared it since; the
  // trace context is never cleared.
  predicate LastSetAt(ops: seq<Op>, f: Field, i: nat) {
    && i < |ops| && SetsField(ops[i], f)
    && forall j :: i < j < |ops| ==> !SetsField(ops[j], f) && (Clears(ops[j]) ==> f == TraceContext)
  }

  lemma {:induction false} StoredIsLastSet(ops: seq<Op>, f: Field)
    ensures f in History(ops).fields
    ensures forall i: nat :: LastSetAt(ops, f, i) ==> History(ops).fields[f] == ops[i].text
    ensures (forall i: nat :: !LastSetAt(ops, f, i)) ==> History(ops).fields[f] == None
  {
    AllFields();
    if ops != [] {
      StoredIsLastSet(ops[..|ops| - 1], f);
      LastSetMoves(ops, f);
      hide LastSetAt;
      FieldAfter(History(ops[..|ops| - 1]), ops[|ops| - 1], f);
    }
  }

  lemma LastSetMoves(ops: seq<Op>, f: Field)
    requires ops != []
    ensures var p, op := ops[..|ops| - 1], ops[|ops| - 1];
            && (LastSetAt(ops, f, |p|) <==> SetsField(op, f))
            && forall i: nat :: i != |p| ==>
                 (LastSetAt(ops, f, i) <==> LastSetAt(p, f, i) && !SetsField(op, f) && (Clears(op) ==> f == TraceContext))
  {
    var p, op := ops[..|ops| - 1], ops[|ops| - 1];
    forall i: nat | i != |p|
      ensures LastSetAt(ops, f, i) <==> LastSetAt(p, f, i) && !SetsField(op, f) && (Clears(op) ==> f == TraceContext)
    {
      if i < |p| {
        assert forall j :: i < j < |p| ==> p[j] == ops[j];
        if LastSetAt(ops, f, i) { assert ops[|p|] == op; }
      }
    }
  }

  lemma FieldAfter(m: Mirror, op: Op, f: Field)
    requires f in m.fields
    ensures var m' := Apply(m, op);
            && f in m'.fields
            && m'.fields[f] == if SetsField(op, f) then op.text
                               else if Clears(op) && f != TraceContext then None else m.fields[f]
  {
    AllFields();
  }

  predicate TouchesRing(op: Op) { op.Configure? || op.ClearCrumbs? || Clears(op) }

  // The breadcrumbs added, in order.
  function Texts(ops: seq<Op>): seq<Option<string>> {
    if ops == [] then []
    else
      var op := ops[|ops| - 1];
      Texts(ops[..|ops| - 1]) + if op.Add? then [op.text] else []
  }

  lemma {:induction false} NoRing(ops: seq<Op>, k: nat)
    requires k <= |ops| && (k == 0 || ops[k - 1].Reset?)
    requires forall j :: k <= j < |ops| ==> !ops[j].Configure?
    ensures !History(ops).configured
  {
    if k < |ops| { NoRing(ops[..|ops| - 1], k); }
  }

  lemma {:induction false} RingSize(ops: seq<Op>, c: nat)
    requires c < |ops| && ops[c].Configure?
    requires forall j :: c < j < |ops| ==> !ops[j].Configure? && !ops[j].Reset?
    ensures History(ops).configured && History(ops).max == if ops[c].max >= 0 then ops[c].max else 0
  {
    if c < |ops| - 1 { RingSize(ops[..|ops| - 1], c); }
  }

  lemma {:induction false} AddsSince(ops: seq<Op>, c: nat, k: nat)
    requires c <= k < |ops| && ops[c].Configure? && ops[c].max >= 1 && TouchesRing(ops[k])
    requires forall j :: c < j < |ops| ==> !ops[j].Configure? && !ops[j].Reset?
    requires forall j :: k < j < |ops| ==> !TouchesRing(ops[j])
    ensures History(ops).adds == Texts(ops[k + 1..])
  {
    RingSize(ops, c);
    if k < |ops| - 1 {
      var p := ops[..|ops| - 1];
      RingSize(p, c);
      AddsSince(p, c, k);
      assert ops[k + 1..][..|ops[k + 1..]| - 1] == p[k + 1..];
    } else if c < k {
      RingSize(ops[..|ops| - 1], c);
    }
  }

  lemma {:induction false} ListsFields(m: Mirror, fs: seq<Field>, f: Field, text: string)
    requires f in m.fields
    ensures (f, text) in ExpectedFields(m, fs) <==> f in fs && m.fields[f] == Some(text)
  {
    if fs != [] { ListsFields(m, fs[1..], f, text); }
  }

  // No two of the entries are of one field.
  predicate OnceEach(es: seq<(Field, string)>) {
    forall i, j :: 0 <= i < j < |es| ==> es[i].0 != es[j].0
  }

  lemma {:induction false} ListsOnly(m: Mirror, fs: seq<Field>, e: (Field, string))
    ensures e in ExpectedFields(m, fs) ==> e.0 in fs
  {
    if fs != [] { ListsOnly(m, fs[1..], e); }
  }

  // The fields of a list in which none is repeated are each reported once at most.
  lemma {:induction false} ListsOnce(m: Mirror, fs: seq<Field>)
    requires forall i, j :: 0 <= i < j < |fs| ==> fs[i] != fs[j]
    ensures OnceEach(ExpectedFields(m, fs))
  {
    if fs != [] {
      var rest := ExpectedFields(m, fs[1..]);
      ListsOnce(m, fs[1..]);
      forall e | e in rest ensures e.0 != fs[0] { ListsOnly(m, fs[1..], e); }
      hide OnceEach;
      if fs[0] in m.fields && m.fields[fs[0]].Some? {
        PrependOnce((fs[0], m.fields[fs[0]].value), rest);
      } else {
        assert ExpectedFields(m, fs) == rest;
      }
    }
  }

  lemma PrependOnce(e: (Field, string), es: seq<(Field, string)>)
    requires OnceEach(es) && forall x :: x in es ==> x.0 != e.0
    ensures OnceEach([e] + es)
  {
    forall i, j | 0 <= i < j < |[e] + es| ensures ([e] + es)[i].0 != ([e] + es)[j].0 {
      assert ([e] + es)[j] == es[j - 1] && es[j - 1] in es;
      if i > 0 { assert ([e] + es)[i] == es[i - 1]; }
    }
  }

  /** After any history of operations a text is reported for a field exactly when the
      field was last set to it and has not been cleared since, which the trace context
      never is; and no field is reported twice. */
  lemma ReportsWhatWasLastSet(ops: seq<Op>, f: Field, text: string)
    ensures (f, text) in Expected(History(ops)).fields <==>
            exists i: nat :: LastSetAt(ops, f, i) && ops[i].text == Some(text)
    ensures OnceEach(Expected(History(ops)).fields)
  {
    hide LastSetAt, History;
    ListsOnce(History(ops), FIELDS);
    AllFields();
    StoredIsLastSet(ops, f);
    ListsFields(History(ops), FIELDS, f, text);
  }

  /** And the breadcrumbs reported are the last of those added since the ring was
      last configured, cleared or emptied, as many as it was configured for; none
      if it was never configured, or not again after a reset. */
  lemma ReportsTheLastAdds(ops: seq<Op>, c: nat, k: nat)
    requires c <= k < |ops| && ops[c].Configure? && TouchesRing(ops[k])
    requires forall j :: c < j < |ops| ==> !ops[j].Configure? && !ops[j].Reset?
    requires forall j :: k < j < |ops| ==> !TouchesRing(ops[j])
    ensures var n := if ops[c].max >= 0 then ops[c].max else 0;
            var texts := NonNull(Last(Texts(ops[k + 1..]), n));
            Expected(History(ops)).crumbs == if texts == [] then None else Some(texts)
  {
    hide History, Texts, ExpectedFields;
    RingSize(ops, c);
    if ops[c].max >= 1 { AddsSince(ops, c, k); } else { LastNone(History(ops).adds); LastNone(Texts(ops[k + 1..])); }
  }

  lemma LastNone(adds: seq<Option<string>>)
    ensures Last(adds, 0) == []
  {}

  lemma ReportsNoBreadcrumbs(ops: seq<Op>, k: nat)
    requires k <= |ops| && (k == 0 || ops[k - 1].Reset?)
    requires forall j :: k <= j < |ops| ==> !ops[j].Configure?
    ensures Expected(History(ops)).crumbs == None
  {
    NoRing(ops, k);
  }

  /** Right after a clear or a reset nothing is reported but the trace context. */
  lemma ClearForgets(ops: seq<Op>, f: Field, text: string)
    requires ops != [] && Clears(ops[|ops| - 1])
    ensures Expected(History(ops)).crumbs == None
    ensures (f, text) in Expected(History(ops)).fields ==> f == TraceContext
  {
    ReportsWhatWasLastSet(ops, f, text);
    assert forall i: nat :: LastSetAt(ops, f, i) ==> i != |ops| - 1;
    NothingAdded(ops);
  }

  lemma {:induction false} NothingAdded(ops: seq<Op>)
    requires ops != [] && Clears(ops[|ops| - 1])
    ensures History(ops).adds == [] || !History(ops).configured
  {}

  /** Every history: whatever operations are performed, the report that follows is
      the one their meaning prescribes. */
  method Replay(ops: seq<Op>) returns (r: Report)
    ensures r == Expected(History(ops))
  {
    var s := new Scope();
    for i := 0 to |ops|
      invariant s.Valid() && s.mirror == History(ops[..i])
    {
      assert ops[..i + 1][..i] == ops[..i];
      match ops[i] {
        case Set(f, text) => s.Set(f, text);
        case Add(text) => s.AddBreadcrumb(text);
        case ClearCrumbs => s.ClearBreadcrumbs();
        case Configure(n) => var faults := s.ConfigureBreadcrumbs(n, true, 0);
        case Clear => s.Clear();
        case Reset => s.Reset();
      }
    }
    assert ops[..|ops|] == ops;
    r := s.WriteScope();
  }
}
