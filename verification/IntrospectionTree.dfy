/**
  The introspected report as a tree, described container by container from what
  memory and the runtime answer, without following the writer.
 */
module IntrospectionTree {
  import opened Wrappers
  import opened Introspection

  datatype Node = Leaf(key: string, value: Value) | Tree(key: string, subject: Subject, kids: seq<Node>)

  function Flatten(t: Node): seq<Event>
    decreases t
  {
    match t
    case Leaf(k, v) => [Element(k, v)]
    case Tree(k, s, ks) => [Begin(k, s)] + FlattenAll(ks) + [End]
  }

  function FlattenAll(ks: seq<Node>): seq<Event>
    decreases ks
  {
    if ks == [] then [] else Flatten(ks[0]) + FlattenAll(ks[1..])
  }

  // How many instance variables the writer has slots for.
  function Slots(g: Graph, a: nat): nat { if |g.ivars(a)| > 10 then 10 else |g.ivars(a)| }

  // What a container takes from the budget: one for itself, and one for every
  // instance variable of an object that is not a tagged pointer.
  function Cost(g: Graph, t: Node): nat
    decreases t
  {
    match t
    case Leaf(_, _) => 0
    case Tree(_, Memory(_), ks) => 1 + CostAll(g, ks)
    case Tree(_, Ivars(a), ks) => 1 + (if g.tagged(a) then 0 else Slots(g, a)) + CostAll(g, ks)
  }

  function CostAll(g: Graph, ks: seq<Node>): nat
    decreases ks
  {
    if ks == [] then 0 else Cost(g, ks[0]) + CostAll(g, ks[1..])
  }

  // ----- what each container must hold

  // The instance variables from index i on that are written at all.
  function Written(g: Graph, a: nat, i: nat): seq<nat>
    decreases 10 - i
  {
    if i >= Slots(g, a) then []
    else if g.ivars(a)[i].encoding in "cislqCISLQfdB*@#:" then [i] + Written(g, a, i + 1)
    else Written(g, a, i + 1)
  }

  // Node k is what is to be written of instance variable i.
  predicate IsIvar(g: Graph, a: nat, i: nat, k: Node)
    requires i < |g.ivars(a)|
  {
    var v := g.ivars(a)[i];
    if v.encoding in "*@#:" then k.Tree? && k.key == v.name && k.subject == Memory(g.pointer(a, i))
    else k == Leaf(v.name, g.scalar(a, i))
  }

  // What is said of an address that the runtime does not account for.
  function Otherwise(g: Graph, a: nat): seq<Node> {
    if a == 0 then [Leaf("type", Text("null_pointer"))]
    else match g.cString(a)
      case Some(s) => [Leaf("type", Text("string")), Leaf("value", Text(s))]
      case None => [Leaf("type", Text("unknown"))]
  }

  function Named(kind: string, g: Graph, a: nat): seq<Node> {
    [Leaf("type", Text(kind)), Leaf("class", Text(g.className(a)))]
  }

  predicate IsTree(ks: seq<Node>, key: string, s: Subject) {
    |ks| == 1 && ks[0].Tree? && ks[0].key == key && ks[0].subject == s
  }

  // What an object's container holds after its type and class, with so much of the
  // budget left.
  predicate IsContents(g: Graph, a: nat, ks: seq<Node>, limit: int) {
    match g.classType(a)
    case StringType => ks == if g.text(a).Some? then [Leaf("value", Text(g.text(a).value))] else []
    case URLType => ks == if g.text(a).Some? then [Leaf("value", Text(g.text(a).value))] else []
    case DateType => ks == [Leaf("value", Float(g.float(a)))]
    case NumberType => ks == [Leaf("value", Float(g.float(a)))]
    case ArrayType =>
      if limit > 0 && g.first(a).Some? then IsTree(ks, "first_object", Memory(g.first(a).value)) else ks == []
    case DictionaryType => if limit > 0 then IsTree(ks, "ivars", Ivars(a)) else ks == []
    case ExceptionType => if limit > 0 then IsTree(ks, "ivars", Ivars(a)) else ks == []
    case UnknownType => if limit > 0 then IsTree(ks, "ivars", Ivars(a)) else ks == []
  }

  // What the container of an address holds after the address.
  predicate IsDescription(g: Graph, a: nat, ks: seq<Node>, limit: int) {
    match g.kind(a)
    case ClassKind => ks == Named("objc_class", g, a)
    case BlockKind => ks == Named("objc_block", g, a)
    case UnknownKind => ks == Otherwise(g, a)
    case ObjectKind =>
      if g.restricted.Some? && Some(g.className(a)) in g.restricted.value then
        ks == Named("objc_object", g, a) + Otherwise(g, a)
      else
        |ks| >= 2 && ks[..2] == Named("objc_object", g, a) && IsContents(g, a, ks[2..], limit)
  }

  predicate IsIvarList(g: Graph, a: nat, ks: seq<Node>) {
    if g.tagged(a) then ks == [Leaf("tagged_payload", Number(g.payload(a)))]
    else AreIvars(g, a, ks, Written(g, a, 0))
  }

  predicate AreIvars(g: Graph, a: nat, ks: seq<Node>, idx: seq<nat>) {
    |ks| == |idx| && forall j :: 0 <= j < |ks| ==> idx[j] < |g.ivars(a)| && IsIvar(g, a, idx[j], ks[j])
  }

  // Every container below t, and t itself, holds what it must, given the budget it
  // is begun with.
  predicate Right(g: Graph, t: Node, limit: int)
    decreases t
  {
    match t
    case Leaf(_, _) => true
    case Tree(_, Memory(a), ks) =>
      && ks != [] && ks[0] == Leaf("address", Number(a))
      && IsDescription(g, a, ks[1..], limit - 1) && RightAll(g, ks, limit - 1)
    case Tree(_, Ivars(a), ks) =>
      IsIvarList(g, a, ks) && RightAll(g, ks, limit - 1 - if g.tagged(a) then 0 else Slots(g, a))
  }

  // Each sibling is begun with what the ones before it have left.
  predicate RightAll(g: Graph, ks: seq<Node>, limit: int)
    decreases ks
  {
    ks == [] || (Right(g, ks[0], limit) && RightAll(g, ks[1..], limit - Cost(g, ks[0])))
  }

  /** Exactly the instance variables that are pointers or scalars are written, in
      order, none twice. */
  lemma {:induction false} WrittenAre(g: Graph, a: nat, i: nat)
    ensures var w := Written(g, a, i);
            && (forall j, k :: 0 <= j < k < |w| ==> w[j] < w[k])
            && forall n :: n in w <==>
                 i <= n < Slots(g, a) && (IsPointer(g.ivars(a)[n].encoding) || IsScalar(g.ivars(a)[n].encoding))
    decreases 10 - i
  {
    hide IsPointer, IsScalar;
    if i < Slots(g, a) {
      WrittenAre(g, a, i + 1);
      WritesLetters(g.ivars(a)[i].encoding);
      var rest := Written(g, a, i + 1);
      assert Written(g, a, i) == rest || Written(g, a, i) == [i] + rest;
      assert i !in rest && forall j :: 0 <= j < |rest| ==> rest[j] in rest;
    }
  }

  lemma WritesLetters(c: char)
    ensures c in "*@#:" <==> IsPointer(c)
    ensures c in "cislqCISLQfdB*@#:" <==> IsPointer(c) || IsScalar(c)
  {}

  // ----- leaves

  predicate Leaves(ks: seq<Node>) { forall k :: k in ks ==> k.Leaf? }

  lemma {:induction false} LeavesAreRight(g: Graph, ks: seq<Node>, limit: int)
    requires Leaves(ks)
    ensures RightAll(g, ks, limit) && CostAll(g, ks) == 0
    decreases ks
  {
    if ks != [] {
      assert ks[0] in ks && forall k :: k in ks[1..] ==> k in ks;
      LeavesAreRight(g, ks[1..], limit);
    }
  }

  lemma {:induction false} Joined(g: Graph, ks: seq<Node>, us: seq<Node>, limit: int)
    ensures FlattenAll(ks + us) == FlattenAll(ks) + FlattenAll(us)
    ensures CostAll(g, ks + us) == CostAll(g, ks) + CostAll(g, us)
    ensures RightAll(g, ks + us, limit) <==> RightAll(g, ks, limit) && RightAll(g, us, limit - CostAll(g, ks))
    decreases ks
  {
    if ks == [] {
      assert ks + us == us;
    } else {
      assert (ks + us)[0] == ks[0] && (ks + us)[1..] == ks[1..] + us;
      Joined(g, ks[1..], us, limit - Cost(g, ks[0]));
    }
  }

  lemma Single(g: Graph, t: Node, limit: int)
    ensures FlattenAll([t]) == Flatten(t) && CostAll(g, [t]) == Cost(g, t)
    ensures RightAll(g, [t], limit) <==> Right(g, t, limit)
  {
    assert [t][1..] == [];
  }

  lemma Two(k: Node, l: Node)
    ensures FlattenAll([k, l]) == Flatten(k) + Flatten(l)
  {
    assert [k, l][1..] == [l] && [l][1..] == [];
    assert FlattenAll([l]) == Flatten(l) + FlattenAll([]);
  }

  lemma NamedFlat(kind: string, g: Graph, a: nat)
    ensures FlattenAll(Named(kind, g, a)) == [Element("type", Text(kind)), Element("class", Text(g.className(a)))]
    ensures Leaves(Named(kind, g, a))
  {
    Two(Leaf("type", Text(kind)), Leaf("class", Text(g.className(a))));
  }

  lemma OtherwiseFlat(g: Graph, a: nat)
    ensures FlattenAll(Otherwise(g, a)) == [Fallback(g, a)] + FallbackValue(g, a) && Leaves(Otherwise(g, a))
  {
    var ks := Otherwise(g, a);
    if |ks| == 2 { Two(ks[0], ks[1]); } else { Single(g, ks[0], 0); }
  }

  // ----- the tree of what is written

  /** For every graph, cyclic or not, every list of restricted classes and every
      budget, what is written for an address is a tree in which every container, at
      any depth, holds exactly what the runtime answers call for and the budget left
      allows: the description of its address, and of an object its value, its first
      element or its instance variables, each under its own name with its own target. */
  lemma {:induction false} OutputIsTree(g: Graph, key: string, a: nat, limit: int) returns (t: Node)
    ensures t.Tree? && t.key == key && t.subject == Memory(a) && Right(g, t, limit)
    ensures WriteMemory(g, key, a, limit) == Out(Flatten(t), limit - Cost(g, t))
    decreases AtLeastOne(limit), 3, 0
  {
    hide WriteObject, IsDescription, Otherwise, Fallback, FallbackValue;
    var address := Leaf("address", Number(a));
    var ks := DescriptionIsTree(g, a, limit - 1);
    t := Tree(key, Memory(a), [address] + ks);
    Joined(g, [address], ks, limit - 1);
    Single(g, address, limit - 1);
    assert ([address] + ks)[1..] == ks;
  }

  lemma {:induction false} DescriptionIsTree(g: Graph, a: nat, limit: int) returns (ks: seq<Node>)
    ensures IsDescription(g, a, ks, limit) && RightAll(g, ks, limit)
    ensures FlattenAll(ks) == WriteObject(g, a, limit).events +
                              if IsDescribed(g, a) then [] else [Fallback(g, a)] + FallbackValue(g, a)
    ensures limit - CostAll(g, ks) == WriteObject(g, a, limit).limit
    decreases AtLeastOne(limit + 1), 2, 1
  {
    hide Right, RightAll, Named, Otherwise, Fallback, FallbackValue, IsContents, WriteMemory, WriteUnknown, FlattenAll, CostAll;
    OtherwiseFlat(g, a);
    match g.kind(a)
    case ClassKind =>
      ks := Named("objc_class", g, a);
      NamedFlat("objc_class", g, a);
      LeavesAreRight(g, ks, limit);
    case BlockKind =>
      ks := Named("objc_block", g, a);
      NamedFlat("objc_block", g, a);
      LeavesAreRight(g, ks, limit);
    case UnknownKind =>
      ks := Otherwise(g, a);
      LeavesAreRight(g, ks, limit);
    case ObjectKind =>
      var head := Named("objc_object", g, a);
      NamedFlat("objc_object", g, a);
      LeavesAreRight(g, head, limit);
      if IsRestricted(g, g.className(a)) {
        ks := head + Otherwise(g, a);
        LeavesAreRight(g, Otherwise(g, a), limit);
        Joined(g, head, Otherwise(g, a), limit);
      } else {
        var us := ContentsAreTree(g, a, limit);
        ks := head + us;
        Joined(g, head, us, limit);
        NamedIsTwo(g, a, us);
      }
  }

  lemma NamedIsTwo(g: Graph, a: nat, us: seq<Node>)
    ensures var ks := Named("objc_object", g, a) + us;
            |ks| >= 2 && ks[..2] == Named("objc_object", g, a) && ks[2..] == us
  {}

  lemma {:induction false} ContentsAreTree(g: Graph, a: nat, limit: int) returns (ks: seq<Node>)
    requires g.kind(a).ObjectKind? && !IsRestricted(g, g.className(a))
    ensures IsContents(g, a, ks, limit) && RightAll(g, ks, limit)
    ensures WriteObject(g, a, limit).events ==
            [Element("type", Text("objc_object")), Element("class", Text(g.className(a)))] + FlattenAll(ks)
    ensures limit - CostAll(g, ks) == WriteObject(g, a, limit).limit
    decreases AtLeastOne(limit + 1), 2, 0
  {
    hide Right, WriteMemory, WriteUnknown, Flatten, Cost;
    ks := [];
    match g.classType(a)
    case StringType => ks := TextIsLeaf(g, a, limit);
    case URLType => ks := TextIsLeaf(g, a, limit);
    case DateType => ks := FloatIsLeaf(g, a, limit);
    case NumberType => ks := FloatIsLeaf(g, a, limit);
    case ArrayType =>
      if limit > 0 && g.first(a).Some? {
        var t := OutputIsTree(g, "first_object", g.first(a).value, limit);
        Single(g, t, limit);
        ks := [t];
      }
    case DictionaryType => if limit > 0 { ks := UnknownIsTree(g, a, limit); }
    case ExceptionType => if limit > 0 { ks := UnknownIsTree(g, a, limit); }
    case UnknownType => if limit > 0 { ks := UnknownIsTree(g, a, limit); }
  }

  lemma TextIsLeaf(g: Graph, a: nat, limit: int) returns (ks: seq<Node>)
    ensures ks == if g.text(a).Some? then [Leaf("value", Text(g.text(a).value))] else []
    ensures RightAll(g, ks, limit) && CostAll(g, ks) == 0 && FlattenAll(ks) == TextValue(g, a)
  {
    ks := if g.text(a).Some? then [Leaf("value", Text(g.text(a).value))] else [];
    LeavesAreRight(g, ks, limit);
    if ks != [] { Single(g, ks[0], limit); }
  }

  lemma FloatIsLeaf(g: Graph, a: nat, limit: int) returns (ks: seq<Node>)
    ensures ks == [Leaf("value", Float(g.float(a)))]
    ensures RightAll(g, ks, limit) && CostAll(g, ks) == 0 && FlattenAll(ks) == [Element("value", Float(g.float(a)))]
  {
    ks := [Leaf("value", Float(g.float(a)))];
    LeavesAreRight(g, ks, limit);
    Single(g, ks[0], limit);
  }

  lemma {:induction false} UnknownIsTree(g: Graph, a: nat, limit: int) returns (ks: seq<Node>)
    requires limit > 0
    ensures IsTree(ks, "ivars", Ivars(a)) && RightAll(g, ks, limit)
    ensures WriteUnknown(g, a, limit) == Out(FlattenAll(ks), limit - CostAll(g, ks))
    decreases AtLeastOne(limit + 1), 1, 0
  {
    hide WriteIvars, AreIvars, Written;
    var us := [Leaf("tagged_payload", Number(g.payload(a)))];
    if g.tagged(a) {
      LeavesAreRight(g, us, limit - 1);
      Single(g, us[0], limit - 1);
    } else {
      us := IvarsAreTree(g, a, 0, limit - 1 - |IvarsOf(g, a)|);
    }
    ks := [Tree("ivars", Ivars(a), us)];
    Single(g, ks[0], limit);
  }

  lemma {:induction false} IvarsAreTree(g: Graph, a: nat, i: nat, limit: int) returns (ks: seq<Node>)
    requires i <= |IvarsOf(g, a)|
    ensures AreIvars(g, a, ks, Written(g, a, i)) && RightAll(g, ks, limit)
    ensures WriteIvars(g, a, i, limit) == Out(FlattenAll(ks), limit - CostAll(g, ks))
    decreases AtLeastOne(limit), 4, |IvarsOf(g, a)| - i
  {
    hide WriteMemory, Right, RightAll, CostAll, FlattenAll, AreIvars, Written, IsPointer, IsScalar;
    ks := [];
    if i == |IvarsOf(g, a)| {
      NoIvars(g, a, limit);
    } else {
      var v := IvarsOf(g, a)[i];
      WritesLetters(v.encoding);
      if IsPointer(v.encoding) {
        var t := OutputIsTree(g, v.name, g.pointer(a, i), limit);
        var us := IvarsAreTree(g, a, i + 1, limit - Cost(g, t));
        ks := [t] + us;
        OneMoreIvar(g, a, i, t, us, limit);
      } else {
        var us := IvarsAreTree(g, a, i + 1, limit);
        if IsScalar(v.encoding) {
          var t := Leaf(v.name, g.scalar(a, i));
          ks := [t] + us;
          LeafIsRight(g, t, limit);
          OneMoreIvar(g, a, i, t, us, limit);
        } else {
          ks := us;
          NotWritten(g, a, i);
        }
      }
    }
  }

  lemma LeafIsRight(g: Graph, t: Node, limit: int)
    requires t.Leaf?
    ensures Right(g, t, limit) && Cost(g, t) == 0 && Flatten(t) == [Element(t.key, t.value)]
  {}

  lemma NoIvars(g: Graph, a: nat, limit: int)
    ensures var i := Slots(g, a);
            AreIvars(g, a, [], Written(g, a, i)) && RightAll(g, [], limit) && CostAll(g, []) == 0 && FlattenAll([]) == []
  {}

  lemma NotWritten(g: Graph, a: nat, i: nat)
    requires i < Slots(g, a) && g.ivars(a)[i].encoding !in "cislqCISLQfdB*@#:"
    ensures Written(g, a, i) == Written(g, a, i + 1)
  {}

  lemma OneMoreIvar(g: Graph, a: nat, i: nat, t: Node, us: seq<Node>, limit: int)
    requires i < Slots(g, a) && g.ivars(a)[i].encoding in "cislqCISLQfdB*@#:" && IsIvar(g, a, i, t)
    requires AreIvars(g, a, us, Written(g, a, i + 1)) && Right(g, t, limit) && RightAll(g, us, limit - Cost(g, t))
    ensures AreIvars(g, a, [t] + us, Written(g, a, i)) && RightAll(g, [t] + us, limit)
    ensures FlattenAll([t] + us) == Flatten(t) + FlattenAll(us) && CostAll(g, [t] + us) == Cost(g, t) + CostAll(g, us)
  {
    hide AreIvars, Right, Flatten, Cost, IsIvar;
    assert ([t] + us)[0] == t && ([t] + us)[1..] == us;
    PrependIvar(g, a, i, t, us, Written(g, a, i + 1));
  }

  lemma PrependIvar(g: Graph, a: nat, i: nat, t: Node, us: seq<Node>, idx: seq<nat>)
    requires i < |g.ivars(a)| && IsIvar(g, a, i, t) && AreIvars(g, a, us, idx)
    ensures AreIvars(g, a, [t] + us, [i] + idx)
  {
    hide IsIvar;
  }
}
