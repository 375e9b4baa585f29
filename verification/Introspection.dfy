/**
  Writing what an address points to into a crash report: a mutual recursion over
  an arbitrary, possibly cyclic object graph, bounded by one shared budget.
 */
module Introspection {

  import opened Wrappers

  datatype Kind = UnknownKind | ClassKind | ObjectKind | BlockKind

  datatype ClassType =
    | StringType | URLType | DateType | ArrayType | NumberType | DictionaryType | ExceptionType | UnknownType

  datatype Value = Text(s: string) | Number(n: int) | Float(r: real)

  // An instance variable: its name and the first letter of its type encoding.
  datatype Ivar = Ivar(name: string, encoding: char)

  // What memory and the Objective-C runtime answer about an address; arbitrary.
  datatype Graph = Graph(
    kind: nat -> Kind, className: nat -> string, classType: nat -> ClassType,
    tagged: nat -> bool, payload: nat -> int, ivars: nat -> seq<Ivar>,
    pointer: (nat, nat) -> nat, scalar: (nat, nat) -> Value,
    text: nat -> Option<string>, float: nat -> real, first: nat -> Option<nat>,
    cString: nat -> Option<string>, restricted: Option<seq<Option<string>>>)

  // A container begun for an address or for an object's instance variables.
  datatype Subject = Memory(addr: nat) | Ivars(addr: nat)

  datatype Event = Begin(key: string, subject: Subject) | Element(key: string, value: Value) | End

  datatype Out = Out(events: seq<Event>, limit: int)

  // The ivar list is cut to the ten slots the writer has for it.
  function IvarsOf(g: Graph, a: nat): (r: seq<Ivar>)
    ensures |r| <= 10
  {
    if |g.ivars(a)| > 10 then g.ivars(a)[..10] else g.ivars(a)
  }

  predicate IsPointer(c: char) { c in {'*', '@', '#', ':'} }

  predicate IsScalar(c: char) { c in {'c', 'i', 's', 'l', 'q', 'C', 'I', 'S', 'L', 'Q', 'f', 'd', 'B'} }

  predicate IsRestricted(g: Graph, name: string) {
    g.restricted.Some? && Some(name) in g.restricted.value
  }

  // ----- specification

  function AtLeastOne(limit: int): nat { if limit > 1 then limit else 1 }

  function WriteMemory(g: Graph, key: string, a: nat, limit: int): (o: Out)
    ensures o.limit < limit
    decreases AtLeastOne(limit), 3, 0
  {
    var inner := WriteObject(g, a, limit - 1);
    Out([Begin(key, Memory(a)), Element("address", Number(a))] + inner.events +
        (if IsDescribed(g, a) then [] else [Fallback(g, a)] + FallbackValue(g, a)) + [End],
        inner.limit)
  }

  // Does the Objective-C part account for the address?
  predicate IsDescribed(g: Graph, a: nat) {
    match g.kind(a)
    case ClassKind => true
    case ObjectKind => !IsRestricted(g, g.className(a))
    case BlockKind => true
    case UnknownKind => false
  }

  function Fallback(g: Graph, a: nat): Event {
    Element("type", Text(if a == 0 then "null_pointer" else if g.cString(a).Some? then "string" else "unknown"))
  }

  function FallbackValue(g: Graph, a: nat): seq<Event> {
    if a != 0 && g.cString(a).Some? then [Element("value", Text(g.cString(a).value))] else []
  }

  function WriteObject(g: Graph, a: nat, limit: int): (o: Out)
    ensures o.limit <= limit
    decreases AtLeastOne(limit + 1), 2, 0
  {
    match g.kind(a)
    case ClassKind => Out([Element("type", Text("objc_class")), Element("class", Text(g.className(a)))], limit)
    case BlockKind => Out([Element("type", Text("objc_block")), Element("class", Text(g.className(a)))], limit)
    case UnknownKind => Out([], limit)
    case ObjectKind =>
      var head := [Element("type", Text("objc_object")), Element("class", Text(g.className(a)))];
      if IsRestricted(g, g.className(a)) then Out(head, limit)
      else
        match g.classType(a)
        case StringType => Out(head + TextValue(g, a), limit)
        case URLType => Out(head + TextValue(g, a), limit)
        case DateType => Out(head + [Element("value", Float(g.float(a)))], limit)
        case NumberType => Out(head + [Element("value", Float(g.float(a)))], limit)
        case ArrayType =>
          if limit > 0 && g.first(a).Some? then
            var o := WriteMemory(g, "first_object", g.first(a).value, limit);
            Out(head + o.events, o.limit)
          else Out(head, limit)
        case _ =>
          if limit > 0 then
            var o := WriteUnknown(g, a, limit);
            Out(head + o.events, o.limit)
          else Out(head, limit)
  }

  function TextValue(g: Graph, a: nat): seq<Event> {
    if g.text(a).Some? then [Element("value", Text(g.text(a).value))] else []
  }

  function WriteUnknown(g: Graph, a: nat, limit: int): (o: Out)
    requires limit > 0
    ensures o.limit < limit
    decreases AtLeastOne(limit + 1), 1, 0
  {
    if g.tagged(a) then
      Out([Begin("ivars", Ivars(a)), Element("tagged_payload", Number(g.payload(a))), End], limit - 1)
    else
      var o := WriteIvars(g, a, 0, limit - 1 - |IvarsOf(g, a)|);
      Out([Begin("ivars", Ivars(a))] + o.events + [End], o.limit)
  }

  // The ivars from index i on; the budget is not consulted here.
  function WriteIvars(g: Graph, a: nat, i: nat, limit: int): (o: Out)
    requires i <= |IvarsOf(g, a)|
    ensures o.limit <= limit
    decreases AtLeastOne(limit), 4, |IvarsOf(g, a)| - i
  {
    if i == |IvarsOf(g, a)| then Out([], limit)
    else
      var v := IvarsOf(g, a)[i];
      if IsPointer(v.encoding) then
        var o := WriteMemory(g, v.name, g.pointer(a, i), limit);
        var rest := WriteIvars(g, a, i + 1, o.limit);
        Out(o.events + rest.events, rest.limit)
      else
        var rest := WriteIvars(g, a, i + 1, limit);
        Out((if IsScalar(v.encoding) then [Element(v.name, g.scalar(a, i))] else []) + rest.events, rest.limit)
  }

  // ----- the recursion as the code runs it

  class Writer {
    var events: seq<Event>

    constructor ()
      ensures events == []
    {
      events := [];
    }

    method Emit(e: Event)
      modifies this
      ensures events == old(events) + [e]
    {
      events := events + [e];
    }
  }

  class Budget {
    var limit: int

    constructor (n: int)
      ensures limit == n
    {
      limit := n;
    }
  }

  method CheckRestricted(g: Graph, name: string) returns (found: bool)
    ensures found <==> IsRestricted(g, name)
  {
    if g.restricted.Some? {
      var i := 0;
      while i < |g.restricted.value|
        invariant 0 <= i <= |g.restricted.value|
        invariant forall j :: 0 <= j < i ==> g.restricted.value[j] != Some(name)
      {
        var c := g.restricted.value[i];
        if c.Some? && name == c.value { return true; }
        i := i + 1;
      }
    }
    return false;
  }

  method WriteMemoryContents(w: Writer, g: Graph, key: string, a: nat, limit: Budget)
    modifies w, limit
    ensures var o := WriteMemory(g, key, a, old(limit.limit));
            w.events == old(w.events) + o.events && limit.limit == o.limit
    decreases AtLeastOne(limit.limit), 3, 0
  {
    hide WriteObject;
    limit.limit := limit.limit - 1;
    w.Emit(Begin(key, Memory(a)));
    w.Emit(Element("address", Number(a)));
    var described := WriteObjCObject(w, g, a, limit);
    if !described {
      if a == 0 {
        w.Emit(Element("type", Text("null_pointer")));
      } else if g.cString(a).Some? {
        w.Emit(Element("type", Text("string")));
        w.Emit(Element("value", Text(g.cString(a).value)));
      } else {
        w.Emit(Element("type", Text("unknown")));
      }
    }
    w.Emit(End);
  }

  method WriteObjCObject(w: Writer, g: Graph, a: nat, limit: Budget) returns (described: bool)
    modifies w, limit
    ensures var o := WriteObject(g, a, old(limit.limit));
            w.events == old(w.events) + o.events && limit.limit == o.limit
    ensures described <==> IsDescribed(g, a)
    decreases AtLeastOne(limit.limit + 1), 2, 0
  {
    hide WriteMemory, WriteUnknown;
    match g.kind(a)
    case ClassKind =>
      w.Emit(Element("type", Text("objc_class")));
      w.Emit(Element("class", Text(g.className(a))));
      return true;
    case BlockKind =>
      w.Emit(Element("type", Text("objc_block")));
      w.Emit(Element("class", Text(g.className(a))));
      return true;
    case UnknownKind =>
      return false;
    case ObjectKind =>
      w.Emit(Element("type", Text("objc_object")));
      w.Emit(Element("class", Text(g.className(a))));
      var restricted := CheckRestricted(g, g.className(a));
      if restricted { return false; }
      match g.classType(a) {
        case StringType => if g.text(a).Some? { w.Emit(Element("value", Text(g.text(a).value))); }
        case URLType => if g.text(a).Some? { w.Emit(Element("value", Text(g.text(a).value))); }
        case DateType => w.Emit(Element("value", Float(g.float(a))));
        case NumberType => w.Emit(Element("value", Float(g.float(a))));
        case ArrayType =>
          if limit.limit > 0 && g.first(a).Some? {
            WriteMemoryContents(w, g, "first_object", g.first(a).value, limit);
          }
        case DictionaryType => if limit.limit > 0 { WriteUnknownObject(w, g, a, limit); }
        case ExceptionType => if limit.limit > 0 { WriteUnknownObject(w, g, a, limit); }
        case UnknownType => if limit.limit > 0 { WriteUnknownObject(w, g, a, limit); }
      }
      return true;
  }

  method WriteUnknownObject(w: Writer, g: Graph, a: nat, limit: Budget)
    requires limit.limit > 0
    modifies w, limit
    ensures var o := WriteUnknown(g, a, old(limit.limit));
            w.events == old(w.events) + o.events && limit.limit == o.limit
    decreases AtLeastOne(limit.limit + 1), 1, 0
  {
    hide WriteIvars;
    limit.limit := limit.limit - 1;
    w.Emit(Begin("ivars", Ivars(a)));
    if g.tagged(a) {
      w.Emit(Element("tagged_payload", Number(g.payload(a))));
    } else {
      limit.limit := limit.limit - |IvarsOf(g, a)|;
      WriteIvarList(w, g, a, limit);
    }
    w.Emit(End);
  }

  // The loop of writeUnknownObjectContents.
  method WriteIvarList(w: Writer, g: Graph, a: nat, limit: Budget)
    modifies w, limit
    ensures var o := WriteIvars(g, a, 0, old(limit.limit));
            w.events == old(w.events) + o.events && limit.limit == o.limit
    decreases AtLeastOne(limit.limit), 4, 0
  {
    hide WriteMemory, IsPointer, IsScalar, IvarsOf;
    ghost var start := limit.limit;
    ghost var all := WriteIvars(g, a, 0, limit.limit);
    var ivars := IvarsOf(g, a);
    var i := 0;
    while i < |ivars|
      invariant 0 <= i <= |ivars| && limit.limit <= start
      invariant var rest := WriteIvars(g, a, i, limit.limit);
                w.events + rest.events == old(w.events) + all.events && rest.limit == all.limit
    {
      var v := ivars[i];
      if IsPointer(v.encoding) {
        WriteMemoryContents(w, g, v.name, g.pointer(a, i), limit);
      } else if IsScalar(v.encoding) {
        w.Emit(Element(v.name, g.scalar(a, i)));
      }
      i := i + 1;
    }
    assert WriteIvars(g, a, i, limit.limit).events == [];
    assert w.events == old(w.events) + all.events;
  }

  // ----- the output bound

  // How many addresses were written.
  function Objects(es: seq<Event>): nat {
    if es == [] then 0
    else (if es[0].Begin? && es[0].subject.Memory? then 1 else 0) + Objects(es[1..])
  }

  lemma {:induction false} ObjectsConcat(s: seq<Event>, t: seq<Event>)
    ensures Objects(s + t) == Objects(s) + Objects(t)
  {
    if s == [] {
      assert s + t == t;
    } else {
      assert (s + t)[1..] == s[1..] + t;
      ObjectsConcat(s[1..], t);
    }
  }

  lemma {:induction false} NoObjects(s: seq<Event>)
    requires forall e :: e in s ==> !(e.Begin? && e.subject.Memory?)
    ensures Objects(s) == 0
  {
    if s != [] {
      assert s[0] in s && forall e :: e in s[1..] ==> e in s;
      NoObjects(s[1..]);
    }
  }

  // Wrapping in anything but a memory container changes no count.
  lemma Wrapped(head: seq<Event>, es: seq<Event>, tail: seq<Event>)
    requires forall e :: e in head || e in tail ==> !(e.Begin? && e.subject.Memory?)
    ensures Objects(head + es + tail) == Objects(es)
  {
    ObjectsConcat(head + es, tail);
    ObjectsConcat(head, es);
    NoObjects(head);
    NoObjects(tail);
  }

  function Bound(limit: int): int { if limit <= 1 then 1 else limit + 9 }

  lemma {:induction false} MemoryBound(g: Graph, key: string, a: nat, limit: int)
    ensures var o := WriteMemory(g, key, a, limit);
            1 <= Objects(o.events) <= limit - o.limit && Objects(o.events) <= Bound(limit)
    decreases AtLeastOne(limit), 3, 0
  {
    hide WriteObject, Objects;
    var inner := WriteObject(g, a, limit - 1);
    ObjectBound(g, a, limit - 1);
    var b, head := [Begin(key, Memory(a))], [Element("address", Number(a))];
    var tail := (if IsDescribed(g, a) then [] else [Fallback(g, a)] + FallbackValue(g, a)) + [End];
    Wrapped(head, inner.events, tail);
    ObjectsConcat(b, head + inner.events + tail);
    OneObject(key, a);
    assert WriteMemory(g, key, a, limit).events == b + (head + inner.events + tail);
  }

  lemma OneObject(key: string, a: nat)
    ensures Objects([Begin(key, Memory(a))]) == 1
  {
    assert [Begin(key, Memory(a))][1..] == [];
  }

  lemma {:induction false} ObjectBound(g: Graph, a: nat, limit: int)
    ensures var o := WriteObject(g, a, limit);
            Objects(o.events) <= limit - o.limit && Objects(o.events) <= if limit <= 0 then 0 else limit + 9
    decreases AtLeastOne(limit + 1), 2, 0
  {
    hide WriteMemory, WriteUnknown, Objects;
    var o := WriteObject(g, a, limit);
    if g.kind(a).ObjectKind? && !IsRestricted(g, g.className(a)) && limit > 0 && Recurses(g.classType(a)) {
      var head := [Element("type", Text("objc_object")), Element("class", Text(g.className(a)))];
      if g.classType(a).ArrayType? {
        if g.first(a).Some? {
          var m := WriteMemory(g, "first_object", g.first(a).value, limit);
          MemoryBound(g, "first_object", g.first(a).value, limit);
          Wrapped(head, m.events, []);
          assert head + m.events + [] == o.events;
        } else {
          NoObjects(o.events);
        }
      } else {
        UnknownBound(g, a, limit);
        Wrapped(head, WriteUnknown(g, a, limit).events, []);
        assert head + WriteUnknown(g, a, limit).events + [] == o.events;
      }
    } else {
      FlatObject(g, a, limit);
    }
  }

  predicate Recurses(t: ClassType) { t.ArrayType? || t.DictionaryType? || t.ExceptionType? || t.UnknownType? }

  lemma FlatObject(g: Graph, a: nat, limit: int)
    requires !(g.kind(a).ObjectKind? && !IsRestricted(g, g.className(a)) && limit > 0 && Recurses(g.classType(a)))
    ensures var o := WriteObject(g, a, limit); Objects(o.events) == 0 && o.limit == limit
  {
    hide Objects;
    NoObjects(WriteObject(g, a, limit).events);
  }

  lemma {:induction false} UnknownBound(g: Graph, a: nat, limit: int)
    requires limit > 0
    ensures var o := WriteUnknown(g, a, limit);
            Objects(o.events) <= limit - o.limit && Objects(o.events) <= limit + 9
    decreases AtLeastOne(limit + 1), 1, 0
  {
    hide WriteIvars, Objects;
    if g.tagged(a) {
      NoObjects(WriteUnknown(g, a, limit).events);
    } else {
      var n := |IvarsOf(g, a)|;
      IvarsBound(g, a, 0, limit - 1 - n);
      Wrapped([Begin("ivars", Ivars(a))], WriteIvars(g, a, 0, limit - 1 - n).events, [End]);
    }
  }

  // One object for each remaining ivar, plus what is left of the budget.
  lemma {:induction false} IvarsBound(g: Graph, a: nat, i: nat, limit: int)
    requires i <= |IvarsOf(g, a)|
    ensures var o := WriteIvars(g, a, i, limit);
            && Objects(o.events) <= limit - o.limit
            && Objects(o.events) <= |IvarsOf(g, a)| - i + if limit > -8 then limit + 8 else 0
    decreases AtLeastOne(limit), 4, |IvarsOf(g, a)| - i
  {
    hide WriteMemory;
    if i < |IvarsOf(g, a)| {
      var v := IvarsOf(g, a)[i];
      if IsPointer(v.encoding) {
        var o := WriteMemory(g, v.name, g.pointer(a, i), limit);
        MemoryBound(g, v.name, g.pointer(a, i), limit);
        SmallBudget(g, v.name, g.pointer(a, i), limit);
        IvarsBound(g, a, i + 1, o.limit);
        ObjectsConcat(o.events, WriteIvars(g, a, i + 1, o.limit).events);
      } else {
        IvarsBound(g, a, i + 1, limit);
        var here := if IsScalar(v.encoding) then [Element(v.name, g.scalar(a, i))] else [];
        Wrapped(here, WriteIvars(g, a, i + 1, limit).events, []);
        assert here + WriteIvars(g, a, i + 1, limit).events + [] == WriteIvars(g, a, i, limit).events;
      }
    }
  }

  // Without budget an address is written and nothing below it.
  lemma SmallBudget(g: Graph, key: string, a: nat, limit: int)
    ensures limit <= 1 ==> WriteMemory(g, key, a, limit).limit == limit - 1
  {}

  /** Introspection terminates on every graph, cyclic or not, and starting with a
      budget of at least 2 writes at most nine objects more than the budget, even
      though the loop over instance variables never consults it.  With a budget of
      1 it writes one object. */
  lemma OutputIsBounded(g: Graph, key: string, a: nat, limit: int)
    requires limit >= 1
    ensures var n := Objects(WriteMemory(g, key, a, limit).events);
            1 <= n <= limit + 9 && (limit == 1 ==> n == 1) && (limit == 15 ==> n <= 24)
  {
    MemoryBound(g, key, a, limit);
  }

  // Arrays nested k - 1 deep around an object with ten pointers to nothing.
  function Deep(): Graph {
    Graph(a => if a == 0 then UnknownKind else ObjectKind, a => "c",
          a => if a == 1 then UnknownType else ArrayType,
          a => false, a => 0, a => seq(10, i => Ivar("p", '@')),
          (a, i) => 0, (a, i) => Number(0), a => None, a => 0.0,
          a => if a > 1 then Some(a - 1) else None, a => None, None)
  }

  // An object of that graph is written around its contents.
  lemma DeepShell(key: string, limit: nat)
    requires limit >= 2
    ensures Objects(WriteMemory(Deep(), key, limit - 1, limit).events) ==
            1 + Objects(WriteObject(Deep(), limit - 1, limit - 1).events)
  {
    hide Objects, WriteObject;
    var g, a := Deep(), limit - 1;
    var b, front, o := [Begin(key, Memory(a))], [Element("address", Number(a))], WriteObject(g, a, limit - 1);
    assert IsDescribed(g, a);
    assert WriteMemory(g, key, a, limit).events == b + (front + o.events + [End]);
    OneObject(key, a);
    ObjectsConcat(b, front + o.events + [End]);
    Wrapped(front, o.events, [End]);
  }

  lemma DeepBottom()
    ensures Objects(WriteObject(Deep(), 1, 1).events) == 10
  {
    hide Objects;
    var g, o, u := Deep(), WriteObject(Deep(), 1, 1), WriteUnknown(Deep(), 1, 1);
    var head := [Element("type", Text("objc_object")), Element("class", Text("c"))];
    assert o.events == head + u.events + [];
    Wrapped(head, u.events, []);
    Wrapped([Begin("ivars", Ivars(1))], WriteIvars(g, 1, 0, -10).events, [End]);
    TenPointers(0, -10);
  }

  lemma DeepNext(limit: nat)
    requires limit > 2
    ensures Objects(WriteObject(Deep(), limit - 1, limit - 1).events) ==
            Objects(WriteMemory(Deep(), "first_object", limit - 2, limit - 1).events)
  {
    hide Objects, WriteMemory;
    var n := WriteMemory(Deep(), "first_object", limit - 2, limit - 1);
    var head := [Element("type", Text("objc_object")), Element("class", Text("c"))];
    assert WriteObject(Deep(), limit - 1, limit - 1).events == head + n.events + [];
    Wrapped(head, n.events, []);
  }

  /** The bound is exact: for every budget of at least 2 some graph reaches it. */
  lemma {:induction false} BoundIsReached(key: string, limit: nat)
    requires limit >= 2
    ensures Objects(WriteMemory(Deep(), key, limit - 1, limit).events) == limit + 9
    decreases limit
  {
    hide Objects, Deep, WriteMemory, WriteObject;
    DeepShell(key, limit);
    if limit == 2 {
      DeepBottom();
    } else {
      DeepNext(limit);
      BoundIsReached("first_object", limit - 1);
    }
  }

  lemma {:induction false} TenPointers(i: nat, limit: int)
    requires i <= 10 && limit <= 0
    ensures |IvarsOf(Deep(), 1)| == 10
    ensures Objects(WriteIvars(Deep(), 1, i, limit).events) == 10 - i
    decreases 10 - i
  {
    hide Objects;
    var g := Deep();
    assert |IvarsOf(g, 1)| == 10;
    if i < 10 {
      assert IvarsOf(g, 1)[i] == Ivar("p", '@');
      var m := WriteMemory(g, "p", 0, limit);
      SmallBudget(g, "p", 0, limit);
      MemoryBound(g, "p", 0, limit);
      TenPointers(i + 1, m.limit);
      ObjectsConcat(m.events, WriteIvars(g, 1, i + 1, m.limit).events);
    } else {
      NoObjects(WriteIvars(g, 1, i, limit).events);
    }
  }

  // ----- bracketing

  // The nesting depth after the events, unless a container is ended that was not begun.
  function Level(d: nat, es: seq<Event>): Option<nat>
    decreases es
  {
    if es == [] then Some(d)
    else match es[0]
      case Begin(_, _) => Level(d + 1, es[1..])
      case Element(_, _) => Level(d, es[1..])
      case End => if d == 0 then None else Level(d - 1, es[1..])
  }

  lemma {:induction false} LevelConcat(d: nat, s: seq<Event>, t: seq<Event>)
    requires Level(d, s).Some?
    ensures Level(d, s + t) == Level(Level(d, s).value, t)
    decreases s
  {
    if s == [] {
      assert s + t == t;
    } else {
      assert (s + t)[1..] == s[1..] + t;
      match s[0]
      case Begin(_, _) => LevelConcat(d + 1, s[1..], t);
      case Element(_, _) => LevelConcat(d, s[1..], t);
      case End => LevelConcat(d - 1, s[1..], t);
    }
  }

  predicate Flat(es: seq<Event>) { forall e :: e in es ==> e.Element? }

  lemma {:induction false} FlatLevel(d: nat, es: seq<Event>)
    requires Flat(es)
    ensures Level(d, es) == Some(d)
    decreases es
  {
    if es != [] {
      assert es[0] in es && forall e :: e in es[1..] ==> e in es;
      FlatLevel(d, es[1..]);
    }
  }

  // A container around balanced contents, with elements before and after them.
  lemma Enclosed(d: nat, b: Event, head: seq<Event>, es: seq<Event>, tail: seq<Event>)
    requires b.Begin? && Flat(head) && Flat(tail) && Level(d + 1, es) == Some(d + 1)
    ensures Level(d, [b] + (head + es + tail + [End])) == Some(d)
  {
    FlatLevel(d + 1, head);
    FlatLevel(d + 1, tail);
    LevelConcat(d + 1, head, es);
    LevelConcat(d + 1, head + es, tail);
    LevelConcat(d + 1, head + es + tail, [End]);
    assert [End][1..] == [] && ([b] + (head + es + tail + [End]))[1..] == head + es + tail + [End];
  }

  /** The containers begun and ended while writing an address nest perfectly and
      leave the writer at the depth it was at, for every graph, budget and list of
      restricted classes. */
  lemma {:induction false} MemoryIsBracketed(g: Graph, key: string, a: nat, limit: int, d: nat)
    ensures Level(d, WriteMemory(g, key, a, limit).events) == Some(d)
    decreases AtLeastOne(limit), 3, 0
  {
    hide WriteObject, Level;
    var inner := WriteObject(g, a, limit - 1);
    ObjectIsBracketed(g, a, limit - 1, d + 1);
    var tail := if IsDescribed(g, a) then [] else [Fallback(g, a)] + FallbackValue(g, a);
    Enclosed(d, Begin(key, Memory(a)), [Element("address", Number(a))], inner.events, tail);
    assert WriteMemory(g, key, a, limit).events ==
           [Begin(key, Memory(a))] + ([Element("address", Number(a))] + inner.events + tail + [End]);
  }

  lemma {:induction false} ObjectIsBracketed(g: Graph, a: nat, limit: int, d: nat)
    ensures Level(d, WriteObject(g, a, limit).events) == Some(d)
    decreases AtLeastOne(limit + 1), 2, 0
  {
    hide WriteMemory, WriteUnknown, Level;
    var o := WriteObject(g, a, limit);
    if g.kind(a).ObjectKind? && !IsRestricted(g, g.className(a)) && limit > 0 && Recurses(g.classType(a)) {
      var head := [Element("type", Text("objc_object")), Element("class", Text(g.className(a)))];
      FlatLevel(d, head);
      if !g.classType(a).ArrayType? {
        UnknownIsBracketed(g, a, limit, d);
        LevelConcat(d, head, WriteUnknown(g, a, limit).events);
      } else if g.first(a).Some? {
        MemoryIsBracketed(g, "first_object", g.first(a).value, limit, d);
        LevelConcat(d, head, WriteMemory(g, "first_object", g.first(a).value, limit).events);
      }
    } else {
      FlatLevel(d, o.events);
    }
  }

  lemma {:induction false} UnknownIsBracketed(g: Graph, a: nat, limit: int, d: nat)
    requires limit > 0
    ensures Level(d, WriteUnknown(g, a, limit).events) == Some(d)
    decreases AtLeastOne(limit + 1), 1, 0
  {
    hide WriteIvars, Level;
    var es := if g.tagged(a) then [Element("tagged_payload", Number(g.payload(a)))]
              else WriteIvars(g, a, 0, limit - 1 - |IvarsOf(g, a)|).events;
    if g.tagged(a) {
      FlatLevel(d + 1, es);
    } else {
      IvarsAreBracketed(g, a, 0, limit - 1 - |IvarsOf(g, a)|, d + 1);
    }
    Enclosed(d, Begin("ivars", Ivars(a)), [], es, []);
    assert WriteUnknown(g, a, limit).events == [Begin("ivars", Ivars(a))] + ([] + es + [] + [End]);
  }

  lemma {:induction false} IvarsAreBracketed(g: Graph, a: nat, i: nat, limit: int, d: nat)
    requires i <= |IvarsOf(g, a)|
    ensures Level(d, WriteIvars(g, a, i, limit).events) == Some(d)
    decreases AtLeastOne(limit), 4, |IvarsOf(g, a)| - i
  {
    hide WriteMemory;
    if i < |IvarsOf(g, a)| {
      var v := IvarsOf(g, a)[i];
      if IsPointer(v.encoding) {
        var o := WriteMemory(g, v.name, g.pointer(a, i), limit);
        MemoryIsBracketed(g, v.name, g.pointer(a, i), limit, d);
        IvarsAreBracketed(g, a, i + 1, o.limit, d);
        LevelConcat(d, o.events, WriteIvars(g, a, i + 1, o.limit).events);
      } else {
        var here := if IsScalar(v.encoding) then [Element(v.name, g.scalar(a, i))] else [];
        FlatLevel(d, here);
        IvarsAreBracketed(g, a, i + 1, limit, d);
        LevelConcat(d, here, WriteIvars(g, a, i + 1, limit).events);
      }
    }
  }

  // ----- restricted classes

  predicate IsSecret(g: Graph, a: nat) { g.kind(a).ObjectKind? && IsRestricted(g, g.className(a)) }

  // The container begun at index i holds elements only.
  predicate LeafAt(es: seq<Event>, i: nat) {
    exists j :: i < j < |es| && es[j] == End && forall k :: i < k < j ==> es[k].Element?
  }

  // Every container about a secret object is about its address and is a leaf.
  predicate SecretsKept(g: Graph, es: seq<Event>) {
    forall i :: 0 <= i < |es| && es[i].Begin? && IsSecret(g, es[i].subject.addr) ==>
      es[i].subject.Memory? && LeafAt(es, i)
  }

  lemma SecretsConcat(g: Graph, s: seq<Event>, t: seq<Event>)
    requires SecretsKept(g, s) && SecretsKept(g, t)
    ensures SecretsKept(g, s + t)
  {
    var u := s + t;
    forall i | 0 <= i < |u| && u[i].Begin? && IsSecret(g, u[i].subject.addr)
      ensures u[i].subject.Memory? && LeafAt(u, i)
    {
      if i < |s| {
        assert s[i] == u[i] && LeafAt(s, i);
        var j :| i < j < |s| && s[j] == End && forall k :: i < k < j ==> s[k].Element?;
        assert u[j] == End && forall k :: i < k < j ==> u[k] == s[k];
      } else {
        var x := i - |s|;
        assert t[x] == u[i] && LeafAt(t, x);
        var j :| x < j < |t| && t[j] == End && forall k :: x < k < j ==> t[k].Element?;
        assert u[j + |s|] == End && forall k :: i < k < j + |s| ==> u[k] == t[k - |s|];
      }
    }
  }

  lemma SecretLeaf(g: Graph, key: string, a: nat, limit: int)
    requires IsSecret(g, a)
    ensures SecretsKept(g, WriteMemory(g, key, a, limit).events)
  {
    var es := WriteMemory(g, key, a, limit).events;
    var mid := [Element("address", Number(a)), Element("type", Text("objc_object")),
                Element("class", Text(g.className(a))), Fallback(g, a)] + FallbackValue(g, a);
    assert es == [Begin(key, Memory(a))] + mid + [End];
    assert forall e :: e in mid ==> e.Element?;
    var n := |mid| + 1;
    assert es[n] == End && forall k :: 0 < k < n ==> es[k] == mid[k - 1];
    assert LeafAt(es, 0);
  }

  /** Wherever in the output an instance of a restricted class appears, at any
      depth, it is a leaf: no instance variables and no first object are written
      for it, whatever the graph and the budget. */
  lemma {:induction false} RestrictedInstancesAreLeaves(g: Graph, key: string, a: nat, limit: int)
    ensures SecretsKept(g, WriteMemory(g, key, a, limit).events)
    decreases AtLeastOne(limit), 3, 0
  {
    hide WriteObject, SecretsKept;
    if IsSecret(g, a) {
      SecretLeaf(g, key, a, limit);
    } else {
      var inner := WriteObject(g, a, limit - 1);
      ObjectKeepsSecrets(g, a, limit - 1);
      var head := [Begin(key, Memory(a)), Element("address", Number(a))];
      var tail := (if IsDescribed(g, a) then [] else [Fallback(g, a)] + FallbackValue(g, a)) + [End];
      NothingSecret(g, head);
      NothingSecret(g, tail);
      SecretsConcat(g, head, inner.events);
      SecretsConcat(g, head + inner.events, tail);
      assert WriteMemory(g, key, a, limit).events == head + inner.events + tail;
    }
  }

  lemma NothingSecret(g: Graph, es: seq<Event>)
    requires forall e :: e in es && e.Begin? ==> !IsSecret(g, e.subject.addr)
    ensures SecretsKept(g, es)
  {
    assert forall i :: 0 <= i < |es| ==> es[i] in es;
  }

  lemma {:induction false} ObjectKeepsSecrets(g: Graph, a: nat, limit: int)
    ensures SecretsKept(g, WriteObject(g, a, limit).events)
    decreases AtLeastOne(limit + 1), 2, 0
  {
    hide WriteMemory, WriteUnknown, SecretsKept;
    var o := WriteObject(g, a, limit);
    if g.kind(a).ObjectKind? && !IsRestricted(g, g.className(a)) && limit > 0 && Recurses(g.classType(a)) {
      var head := [Element("type", Text("objc_object")), Element("class", Text(g.className(a)))];
      NothingSecret(g, head);
      if !g.classType(a).ArrayType? {
        UnknownKeepsSecrets(g, a, limit);
        SecretsConcat(g, head, WriteUnknown(g, a, limit).events);
      } else if g.first(a).Some? {
        RestrictedInstancesAreLeaves(g, "first_object", g.first(a).value, limit);
        SecretsConcat(g, head, WriteMemory(g, "first_object", g.first(a).value, limit).events);
      }
    } else {
      NothingSecret(g, o.events);
    }
  }

  lemma {:induction false} UnknownKeepsSecrets(g: Graph, a: nat, limit: int)
    requires limit > 0 && !IsSecret(g, a)
    ensures SecretsKept(g, WriteUnknown(g, a, limit).events)
    decreases AtLeastOne(limit + 1), 1, 0
  {
    hide WriteIvars, SecretsKept;
    var b := [Begin("ivars", Ivars(a))];
    NothingSecret(g, b);
    NothingSecret(g, [End]);
    if g.tagged(a) {
      NothingSecret(g, WriteUnknown(g, a, limit).events);
    } else {
      var o := WriteIvars(g, a, 0, limit - 1 - |IvarsOf(g, a)|);
      IvarsKeepSecrets(g, a, 0, limit - 1 - |IvarsOf(g, a)|);
      SecretsConcat(g, b, o.events);
      SecretsConcat(g, b + o.events, [End]);
    }
  }

  lemma {:induction false} IvarsKeepSecrets(g: Graph, a: nat, i: nat, limit: int)
    requires i <= |IvarsOf(g, a)|
    ensures SecretsKept(g, WriteIvars(g, a, i, limit).events)
    decreases AtLeastOne(limit), 4, |IvarsOf(g, a)| - i
  {
    hide WriteMemory, SecretsKept;
    if i == |IvarsOf(g, a)| {
      NothingSecret(g, []);
    } else {
      var v := IvarsOf(g, a)[i];
      if IsPointer(v.encoding) {
        var o := WriteMemory(g, v.name, g.pointer(a, i), limit);
        RestrictedInstancesAreLeaves(g, v.name, g.pointer(a, i), limit);
        IvarsKeepSecrets(g, a, i + 1, o.limit);
        SecretsConcat(g, o.events, WriteIvars(g, a, i + 1, o.limit).events);
      } else {
        var here := if IsScalar(v.encoding) then [Element(v.name, g.scalar(a, i))] else [];
        NothingSecret(g, here);
        IvarsKeepSecrets(g, a, i + 1, limit);
        SecretsConcat(g, here, WriteIvars(g, a, i + 1, limit).events);
      }
    }
  }
}
