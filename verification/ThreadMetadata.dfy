/**
  The profiler's metadata cache: a memo of thread names and priorities keyed by
  the native handle.
 */
module ThreadMetadata {

  datatype Metadata = Metadata(threadID: nat, name: string, priority: int)

  datatype Entry = Entry(handle: nat, metadata: Metadata)

  const MAX_NAME: nat := 100

  // What the system answers about a thread: its priority, -1 on failure, and its
  // name, empty on failure.
  datatype Answer = Answer(priority: int, name: string)

  predicate IsSentryOwned(name: string) { "io.sentry" <= name }

  function Truncated(name: string): string { if |name| > MAX_NAME then name[..MAX_NAME] else name }

  // The index of the first entry for a handle, or the length.
  function Find(es: seq<Entry>, handle: nat): (k: nat)
    ensures k <= |es| && (k < |es| ==> es[k].handle == handle)
    ensures forall i :: 0 <= i < k ==> es[i].handle != handle
  {
    if es == [] || es[0].handle == handle then 0 else 1 + Find(es[1..], handle)
  }

  predicate Known(es: seq<Entry>, handle: nat) { Find(es, handle) < |es| }

  // The answer to a lookup, and the cache after it.
  function Looked(es: seq<Entry>, handle: nat, a: Answer): Metadata {
    var k := Find(es, handle);
    if k < |es| then es[k].metadata
    else if a.priority == -1 then Metadata(handle, "", -1)
    else if IsSentryOwned(a.name) then Metadata(0, "", 0)
    else Metadata(handle, Truncated(a.name), a.priority)
  }

  function Learned(es: seq<Entry>, handle: nat, a: Answer): seq<Entry> {
    if Known(es, handle) || a.priority == -1 then es else es + [Entry(handle, Looked(es, handle, a))]
  }

  class ThreadMetadataCache {
    var entries: seq<Entry>

    constructor ()
      ensures entries == []
    {
      entries := [];
    }

    method MetadataForThread(handle: nat, a: Answer) returns (m: Metadata)
      modifies this
      ensures m == Looked(old(entries), handle, a) && entries == Learned(old(entries), handle, a)
    {
      var i := 0;
      while i < |entries|
        invariant 0 <= i <= |entries| && entries == old(entries)
        invariant forall j :: 0 <= j < i ==> entries[j].handle != handle
      {
        if entries[i].handle == handle {
          FindIs(entries, handle, i);
          return entries[i].metadata;
        }
        i := i + 1;
      }
      FindIs(entries, handle, i);
      m := Metadata(handle, "", a.priority);
      if m.priority == -1 { return; }
      var name := a.name;
      if IsSentryOwned(name) {
        m := m.(priority := 0, threadID := 0);
        entries := entries + [Entry(handle, m)];
        return;
      }
      if |name| > MAX_NAME { name := name[..MAX_NAME]; }
      m := m.(name := name);
      entries := entries + [Entry(handle, m)];
    }
  }

  lemma FindIs(es: seq<Entry>, handle: nat, k: nat)
    requires k <= |es| && (k < |es| ==> es[k].handle == handle)
    requires forall i :: 0 <= i < k ==> es[i].handle != handle
    ensures Find(es, handle) == k
  {
    var f := Find(es, handle);
    assert f < |es| ==> es[f].handle == handle;
  }

  // ----- any sequence of lookups

  datatype Query = Query(handle: nat, answer: Answer)

  function After(es: seq<Entry>, qs: seq<Query>): seq<Entry> {
    if qs == [] then es
    else Learned(After(es, qs[..|qs| - 1]), qs[|qs| - 1].handle, qs[|qs| - 1].answer)
  }

  ghost predicate WellKept(es: seq<Entry>) {
    && (forall i, j :: 0 <= i < j < |es| ==> es[i].handle != es[j].handle)
    && forall i :: 0 <= i < |es| ==>
         |es[i].metadata.name| <= MAX_NAME && es[i].metadata.priority != -1 &&
         (es[i].metadata.threadID == es[i].handle || es[i].metadata == Metadata(0, "", 0))
  }

  /** The cache is a stable memo: over any sequence of lookups there is at most
      one entry per handle, no failed priority is stored, names are bounded, and
      what is stored never changes. */
  lemma {:induction false} StableMemo(es: seq<Entry>, qs: seq<Query>)
    requires WellKept(es)
    ensures WellKept(After(es, qs)) && es <= After(es, qs)
  {
    hide WellKept, Learned;
    if qs != [] {
      var q := qs[|qs| - 1];
      StableMemo(es, qs[..|qs| - 1]);
      LearnsOnce(After(es, qs[..|qs| - 1]), q);
    }
  }

  lemma LearnsOnce(es: seq<Entry>, q: Query)
    requires WellKept(es)
    ensures WellKept(Learned(es, q.handle, q.answer)) && es <= Learned(es, q.handle, q.answer)
  {
    hide Find;
  }

  lemma KnownStays(es: seq<Entry>, more: seq<Entry>, handle: nat)
    requires es <= more && Known(es, handle)
    ensures Find(more, handle) == Find(es, handle)
  {
    FindIs(more, handle, Find(es, handle));
  }

  /** The first successful lookup of a handle decides every later one. */
  lemma FirstLookupDecides(es: seq<Entry>, h: nat, first: Answer, qs: seq<Query>, later: Answer)
    requires WellKept(es) && (Known(es, h) || first.priority != -1)
    ensures Looked(After(Learned(es, h, first), qs), h, later) == Looked(es, h, first)
  {
    var learned := Learned(es, h, first);
    assert WellKept(learned);
    FindIs(learned, h, if Known(es, h) then Find(es, h) else |es|);
    StableMemo(learned, qs);
    KnownStays(learned, After(learned, qs), h);
  }

  // ----- what is stored is the thread's own

  // Does query q find out something about handle h?
  predicate Learns(q: Query, h: nat) { q.handle == h && q.answer.priority != -1 }

  lemma {:induction false} KnownOnceLearned(qs: seq<Query>, h: nat)
    ensures Known(After([], qs), h) <==> exists k :: 0 <= k < |qs| && Learns(qs[k], h)
  {
    hide Looked;
    if qs != [] {
      var p, q := qs[..|qs| - 1], qs[|qs| - 1];
      KnownOnceLearned(p, h);
      KnownStep(After([], p), q, h);
      if exists k :: 0 <= k < |qs| && Learns(qs[k], h) {
        var k :| 0 <= k < |qs| && Learns(qs[k], h);
        if k < |p| { assert Learns(p[k], h); }
      }
      if Learns(q, h) { assert Learns(qs[|p|], h); }
      if k :| 0 <= k < |p| && Learns(p[k], h) { assert Learns(qs[k], h); }
    }
  }

  lemma KnownStep(es: seq<Entry>, q: Query, h: nat)
    ensures Known(Learned(es, q.handle, q.answer), h) <==> Known(es, h) || Learns(q, h)
  {
    hide Looked;
    var more := Learned(es, q.handle, q.answer);
    if Known(es, h) { KnownStays(es, more, h); }
    else if Learns(q, h) { FindIs(more, h, |es|); }
    else {
      FindIs(more, h, |more|);
    }
  }

  lemma {:induction false} AfterConcat(es: seq<Entry>, qs: seq<Query>, us: seq<Query>)
    ensures After(es, qs + us) == After(After(es, qs), us)
  {
    hide Learned;
    if us == [] {
      assert qs + us == qs;
    } else {
      assert (qs + us)[..|qs + us| - 1] == qs + us[..|us| - 1];
      AfterConcat(es, qs, us[..|us| - 1]);
    }
  }

  /** From the empty cache, what a lookup answers is what the system said about that
      thread when its priority could first be had, now or before: its handle, its name
      cut to a hundred characters and its priority, or nothing but zeros if the name
      was one of the profiler's own. */
  lemma LookupIsTheThreads(qs: seq<Query>, k: nat)
    requires k < |qs| && Learns(qs[k], qs[k].handle)
    requires forall i :: 0 <= i < k ==> !Learns(qs[i], qs[k].handle)
    ensures var q, last := qs[k], qs[|qs| - 1];
            last.handle == q.handle ==>
              Looked(After([], qs[..|qs| - 1]), last.handle, last.answer) ==
              if "io.sentry" <= q.answer.name then Metadata(0, "", 0)
              else Metadata(q.handle, if |q.answer.name| > 100 then q.answer.name[..100] else q.answer.name, q.answer.priority)
  {
    var q, last, before := qs[k], qs[|qs| - 1], qs[..k];
    KnownOnceLearned(before, q.handle);
    if k < |qs| - 1 && last.handle == q.handle {
      var rest := qs[k + 1..|qs| - 1];
      assert qs[..|qs| - 1] == (before + [q]) + rest;
      AfterConcat([], before + [q], rest);
      assert (before + [q])[..k] == before;
      StableMemo([], before);
      FirstLookupDecides(After([], before), q.handle, q.answer, rest, last.answer);
    }
  }

  /** The same of the cache as the code runs it, and of a thread about which nothing
      has ever been found out. */
  method LookUpAfter(qs: seq<Query>, h: nat, a: Answer) returns (m: Metadata)
    ensures forall k :: 0 <= k < |qs| && Learns(qs[k], h) && (forall i :: 0 <= i < k ==> !Learns(qs[i], h)) ==>
              var q := qs[k].answer;
              m == if "io.sentry" <= q.name then Metadata(0, "", 0)
                   else Metadata(h, if |q.name| > 100 then q.name[..100] else q.name, q.priority)
    ensures a.priority == -1 && (forall k :: 0 <= k < |qs| ==> !Learns(qs[k], h)) ==> m == Metadata(h, "", -1)
    ensures a.priority != -1 && (forall k :: 0 <= k < |qs| ==> !Learns(qs[k], h)) ==>
              m == if "io.sentry" <= a.name then Metadata(0, "", 0)
                   else Metadata(h, if |a.name| > 100 then a.name[..100] else a.name, a.priority)
  {
    var c := new ThreadMetadataCache();
    for i := 0 to |qs|
      invariant c.entries == After([], qs[..i])
    {
      assert qs[..i + 1][..i] == qs[..i];
      var n := c.MetadataForThread(qs[i].handle, qs[i].answer);
    }
    assert qs[..|qs|] == qs;
    m := c.MetadataForThread(h, a);
    KnownOnceLearned(qs, h);
    var all := qs + [Query(h, a)];
    assert all[..|all| - 1] == qs && all[|qs|] == Query(h, a);
    forall k | 0 <= k < |qs| && Learns(qs[k], h) && (forall i :: 0 <= i < k ==> !Learns(qs[i], h))
      ensures var q := qs[k].answer;
              m == if "io.sentry" <= q.name then Metadata(0, "", 0)
                   else Metadata(h, if |q.name| > 100 then q.name[..100] else q.name, q.priority)
    {
      assert forall i :: 0 <= i <= k ==> all[i] == qs[i];
      LookupIsTheThreads(all, k);
    }
  }
}
