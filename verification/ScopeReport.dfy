/**
  What a crash report says about the scope: the pure reading of a stopped world,
  field by field and around the breadcrumb ring, with every bad access explicit.
 */
module ScopeReport {
  import opened Wrappers

  datatype Field = User | Dist | Context | TraceContext | Environment | Tags | Extras | Fingerprint | Level

  // The order in which the report writes them.
  const FIELDS: seq<Field> :=
    [User, Dist, Context, TraceContext, Environment, Tags, Extras, Fingerprint, Level]

  // A pointer variable; Garbage is memory from malloc that nobody has written.
  datatype Ptr = Null | To(id: nat) | Garbage

  datatype Block = Chars(text: string) | Slots(slots: seq<Ptr>)

  // All that a crash report reads.
  datatype World = World(heap: map<nat, Block>, fields: map<Field, Ptr>, crumbs: Ptr, maxCrumbs: int, current: int)

  // ----- reading

  datatype Read = Bad | Absent | Present(text: string)

  function ReadAt(w: World, p: Ptr): Read {
    match p
    case Null => Absent
    case To(s) => if s in w.heap && w.heap[s].Chars? then Present(w.heap[s].text) else Bad
    case Garbage => Bad
  }

  function ReadField(w: World, f: Field): Read {
    if f in w.fields then ReadAt(w, w.fields[f]) else Bad
  }

  function ReadSlot(w: World, i: int): Read {
    if w.crumbs.To? && w.crumbs.id in w.heap && w.heap[w.crumbs.id].Slots? && 0 <= i < |w.heap[w.crumbs.id].slots|
    then ReadAt(w, w.heap[w.crumbs.id].slots[i])
    else Bad
  }

  datatype Report = Report(fields: seq<(Field, string)>, crumbs: Option<seq<string>>)

  function FieldsOf(w: World, fs: seq<Field>): Option<seq<(Field, string)>> {
    if fs == [] then Some([])
    else
      var rest := FieldsOf(w, fs[1..]);
      match ReadField(w, fs[0])
      case Bad => None
      case Absent => rest
      case Present(t) => if rest == None then None else Some([(fs[0], t)] + rest.value)
  }

  // The first loop over the ring: is there a breadcrumb at index i or later?
  function AnyCrumb(w: World, i: nat): Option<bool>
    decreases w.maxCrumbs - i
  {
    if i >= w.maxCrumbs then Some(false)
    else
      match ReadSlot(w, i)
      case Bad => None
      case Absent => AnyCrumb(w, i + 1)
      case Present(_) => Some(true)
  }

  // The second loop, from offset i, starting at the current slot.
  function CrumbsFrom(w: World, i: nat): Option<seq<string>>
    decreases w.maxCrumbs - i
  {
    if i >= w.maxCrumbs then Some([])
    else
      var rest := CrumbsFrom(w, i + 1);
      match ReadSlot(w, (w.current + i) % w.maxCrumbs)
      case Bad => None
      case Absent => rest
      case Present(t) => if rest == None then None else Some([t] + rest.value)
  }

  function CrumbsOf(w: World): Option<Option<seq<string>>> {
    if w.crumbs == Null then Some(None)
    else
      match AnyCrumb(w, 0)
      case None => None
      case Some(false) => Some(None)
      case Some(true) => if CrumbsFrom(w, 0) == None then None else Some(Some(CrumbsFrom(w, 0).value))
  }

  // The report, or None when writing it would touch bad memory.
  function ReportOf(w: World): Option<Report> {
    if FieldsOf(w, FIELDS) == None || CrumbsOf(w) == None then None
    else Some(Report(FieldsOf(w, FIELDS).value, CrumbsOf(w).value))
  }

  predicate CrashSafe(w: World) { ReportOf(w).Some? }

  // ----- consistent worlds

  // A pointer variable of the scope.
  datatype Place = AtField(f: Field) | AtSlot(i: nat)

  // How many breadcrumbs are kept; a negative maximum keeps none.
  function Size(w: World): nat { if w.maxCrumbs >= 0 then w.maxCrumbs else 0 }

  predicate HasRing(w: World) {
    w.crumbs.To? && w.crumbs.id in w.heap && w.heap[w.crumbs.id].Slots? &&
    (w.maxCrumbs >= 0 ==> |w.heap[w.crumbs.id].slots| == w.maxCrumbs) &&
    0 <= w.current && (w.current < w.maxCrumbs || w.current == 0)
  }

  predicate Exists(w: World, p: Place) {
    match p
    case AtField(f) => f in w.fields
    case AtSlot(i) => HasRing(w) && i < w.maxCrumbs
  }

  function At(w: World, p: Place): Ptr
    requires Exists(w, p)
  {
    match p
    case AtField(f) => w.fields[f]
    case AtSlot(i) => w.heap[w.crumbs.id].slots[i]
  }

  ghost predicate Consistent(w: World) {
    && (w.crumbs == Null || HasRing(w))
    && (forall f: Field :: f in w.fields)
    && (forall p: Place :: Exists(w, p) ==> ReadAt(w, At(w, p)) != Bad)
    && (forall p: Place, q: Place :: Exists(w, p) && Exists(w, q) && p != q && At(w, p) != Null ==> At(w, p) != At(w, q))
  }

  // The text of a place in a consistent world.
  function TextAt(w: World, p: Place): Option<string>
    requires Exists(w, p)
  {
    match ReadAt(w, At(w, p))
    case Present(t) => Some(t)
    case _ => None
  }

  // The ring read from the current slot on.
  function Rotated(w: World): (r: seq<Option<string>>)
    requires HasRing(w)
    ensures |r| == Size(w)
  {
    seq(Size(w), i requires 0 <= i < Size(w) => TextAt(w, AtSlot((w.current + i) % w.maxCrumbs)))
  }

  function NonNull(s: seq<Option<string>>): seq<string> {
    if s == [] then [] else (if s[0].Some? then [s[0].value] else []) + NonNull(s[1..])
  }

  lemma {:induction false} NonNullConcat(s: seq<Option<string>>, t: seq<Option<string>>)
    ensures NonNull(s + t) == NonNull(s) + NonNull(t)
  {
    if s == [] {
      assert s + t == t;
    } else {
      assert (s + t)[1..] == s[1..] + t;
      NonNullConcat(s[1..], t);
    }
  }

  /** Nulls are left out and texts are kept as they are, which with NonNullConcat
      says what is kept of any sequence. */
  lemma {:induction false} NonNullIs(s: seq<string>)
    ensures NonNull([None]) == [] && NonNull(seq(|s|, i requires 0 <= i < |s| => Some(s[i]))) == s
  {
    var somes := seq(|s|, i requires 0 <= i < |s| => Some(s[i]));
    if s != [] {
      assert somes[1..] == seq(|s[1..]|, i requires 0 <= i < |s[1..]| => Some(s[1..][i]));
      NonNullIs(s[1..]);
    }
  }

  lemma {:induction false} FieldsRead(w: World, fs: seq<Field>)
    requires Consistent(w)
    ensures FieldsOf(w, fs).Some?
  {
    if fs != [] {
      assert Exists(w, AtField(fs[0]));
      FieldsRead(w, fs[1..]);
    }
  }

  lemma {:induction false} CrumbsRead(w: World, i: nat)
    requires Consistent(w) && HasRing(w) && i <= Size(w)
    ensures CrumbsFrom(w, i) == Some(NonNull(Rotated(w)[i..]))
    decreases w.maxCrumbs - i
  {
    if i < w.maxCrumbs {
      var k := (w.current + i) % w.maxCrumbs;
      assert Exists(w, AtSlot(k));
      CrumbsRead(w, i + 1);
      var tail := Rotated(w)[i..];
      assert tail[0] == TextAt(w, AtSlot(k)) && tail[1..] == Rotated(w)[i + 1..];
      assert ReadAt(w, At(w, AtSlot(k))) != Bad;
      assert [] + NonNull(tail[1..]) == NonNull(tail[1..]);
    } else {
      assert Rotated(w)[i..] == [];
    }
  }

  lemma {:induction false} AnyRead(w: World, i: nat)
    requires Consistent(w) && HasRing(w) && i <= Size(w)
    ensures AnyCrumb(w, i) == Some(exists k: nat :: i <= k < w.maxCrumbs && TextAt(w, AtSlot(k)).Some?)
    decreases w.maxCrumbs - i
  {
    if i < w.maxCrumbs {
      assert Exists(w, AtSlot(i));
      AnyRead(w, i + 1);
    }
  }

  lemma Wrap(c: nat, i: nat, n: nat)
    requires c < n && i < n
    ensures (c + i) % n == if c + i < n then c + i else c + i - n
  {}

  // The ring read around holds a breadcrumb exactly when some slot does.
  lemma SomeSlot(w: World)
    requires Consistent(w) && HasRing(w)
    ensures NonNull(Rotated(w)) != [] <==> exists k: nat :: k < w.maxCrumbs && TextAt(w, AtSlot(k)).Some?
  {
    NonNullAny(Rotated(w));
    if k: nat :| k < w.maxCrumbs && TextAt(w, AtSlot(k)).Some? {
      var i := if k >= w.current then k - w.current else k + w.maxCrumbs - w.current;
      Wrap(w.current, i, w.maxCrumbs);
      assert Rotated(w)[i] == TextAt(w, AtSlot(k));
    }
    if i :| 0 <= i < Size(w) && Rotated(w)[i].Some? {
      assert TextAt(w, AtSlot((w.current + i) % w.maxCrumbs)).Some?;
    }
  }

  lemma {:induction false} NonNullAny(s: seq<Option<string>>)
    ensures NonNull(s) != [] <==> exists i :: 0 <= i < |s| && s[i].Some?
  {
    if s != [] {
      NonNullAny(s[1..]);
      if i :| 0 <= i < |s| && s[i].Some? {
        if i > 0 { assert s[1..][i - 1].Some?; }
      }
      if i :| 0 <= i < |s[1..]| && s[1..][i].Some? { assert s[i + 1].Some?; }
    }
  }

  // The breadcrumbs a report of a consistent world holds.
  function Emitted(w: World): seq<string> { if HasRing(w) then NonNull(Rotated(w)) else [] }

  /** In a consistent world the report is written without touching bad memory, and
      its breadcrumbs are the non-null entries of the ring from the current slot
      around, with no array when there is none. */
  lemma ConsistentReport(w: World)
    requires Consistent(w)
    ensures CrashSafe(w)
    ensures ReportOf(w).value.crumbs == if Emitted(w) == [] then None else Some(Emitted(w))
  {
    FieldsRead(w, FIELDS);
    if w.crumbs != Null {
      AnyRead(w, 0);
      CrumbsRead(w, 0);
      SomeSlot(w);
      assert Rotated(w)[0..] == Rotated(w);
    }
  }
}
