/**
  The frame-pointer walk: stack bounds, frames, and `backtrace` over arbitrary,
  possibly corrupt memory.  Addresses are unsigned machine words.
 */
module StackWalk {

  datatype Arch = X86_64 | X86 | ARM64 | ARM

  function PtrSize(a: Arch): nat { if a.X86_64? || a.ARM64? then 8 else 4 }

  function WordLimit(a: Arch): nat {
    if a.X86_64? || a.ARM64? then 0x1_0000_0000_0000_0000 else 0x1_0000_0000
  }

  predicate IsWord(a: Arch, x: int) { 0 <= x < WordLimit(a) }

  // A frame is a saved frame pointer followed by a return address.
  function FrameSize(a: Arch): nat { 2 * PtrSize(a) }

  // Subtraction of machine words.
  function Minus(a: Arch, x: nat, y: nat): nat { (x - y) % WordLimit(a) }

  // The instruction before a return address.
  function PreviousInstruction(a: Arch, x: nat): nat {
    match a
    case ARM => var y := Minus(a, x, 3); y - y % 2
    case ARM64 => Minus(a, x, 4)
    case _ => Minus(a, x, 1)
  }

  predicate IsAligned(a: Arch, frame: nat) {
    frame % 16 == if a.ARM? then 8 else 0
  }

  // Bounds of a downward-growing stack: end is the low address.
  datatype Bounds = Bounds(start: nat, end: nat)

  predicate Contains(a: Arch, b: Bounds, frame: nat) {
    frame > b.end && frame < Minus(a, b.start, FrameSize(a))
  }

  predicate IsValid(b: Bounds) { b.start != 0 && b.end != 0 && b.start > b.end }

  predicate IsValidFrame(a: Arch, b: Bounds, frame: nat) { Contains(a, b, frame) && IsAligned(a, frame) }

  predicate BoundsAreWords(a: Arch, b: Bounds) { IsWord(a, b.start) && IsWord(a, b.end) }

  // What the walk can see of the target: which frames are readable and what any
  // word of memory holds.  Both are arbitrary.
  datatype Memory = Memory(readable: nat -> bool, word: nat -> nat)

  function NextFrame(a: Arch, m: Memory, frame: nat): nat { m.word(frame) % WordLimit(a) }

  function ReturnAddress(a: Arch, m: Memory, frame: nat): nat { m.word(frame + PtrSize(a)) % WordLimit(a) }

  // The frame after this one, if the chain goes on.
  predicate HasNext(a: Arch, m: Memory, b: Bounds, frame: nat) {
    NextFrame(a, m, frame) > frame && IsValidFrame(a, b, NextFrame(a, m, frame))
  }

  // The frames of the chain from `frame` up to the first unreadable one.
  function Frames(a: Arch, m: Memory, b: Bounds, frame: nat): seq<nat>
    decreases WordLimit(a) - frame
  {
    if !m.readable(frame) || frame >= WordLimit(a) then []
    else [frame] + if HasNext(a, m, b, frame) then Frames(a, m, b, NextFrame(a, m, frame)) else []
  }

  // Does the chain end by itself rather than at an unreadable frame?
  predicate Complete(a: Arch, m: Memory, b: Bounds, frame: nat)
    decreases WordLimit(a) - frame
  {
    m.readable(frame) && frame < WordLimit(a) &&
    (HasNext(a, m, b, frame) ==> Complete(a, m, b, NextFrame(a, m, frame)))
  }

  function Returns(a: Arch, m: Memory, frames: seq<nat>): (r: seq<nat>)
    ensures |r| == |frames|
  {
    seq(|frames|, i requires 0 <= i < |frames| => ReturnAddress(a, m, frames[i]))
  }

  // ----- safety of the walk

  /** The bounds check keeps the whole frame inside the stack exactly when the
      stack's start is at least one frame above zero: below that the unsigned
      subtraction wraps. */
  lemma ContainsMeansInside(a: Arch, b: Bounds)
    requires BoundsAreWords(a, b) && IsValid(b)
    ensures (forall f: nat :: Contains(a, b, f) ==> b.end < f && f + FrameSize(a) < b.start) <==>
            b.start >= FrameSize(a)
  {
    if b.start >= FrameSize(a) {
      assert Minus(a, b.start, FrameSize(a)) == b.start - FrameSize(a);
    } else {
      assert Minus(a, b.start, FrameSize(a)) == b.start - FrameSize(a) + WordLimit(a);
      assert Contains(a, b, b.end + 1);
    }
  }

  ghost predicate Ascending(frames: seq<nat>) {
    forall i, j :: 0 <= i < j < |frames| ==> frames[i] + 16 <= frames[j]
  }

  /** Every frame that is dereferenced is readable, aligned, wholly inside the
      stack and strictly above the one before it. */
  lemma {:induction false} FramesAreSafe(a: Arch, m: Memory, b: Bounds, frame: nat)
    requires BoundsAreWords(a, b) && b.start >= FrameSize(a) && IsValidFrame(a, b, frame)
    ensures var fs := Frames(a, m, b, frame);
            && Ascending(fs)
            && (fs != [] ==> fs[0] == frame)
            && forall f :: f in fs ==>
                 m.readable(f) && IsAligned(a, f) && frame <= f && b.end < f && f + FrameSize(a) < b.start
    decreases WordLimit(a) - frame
  {
    hide Contains, IsAligned, FrameSize, Minus, NextFrame;
    Inside(a, b, frame);
    if m.readable(frame) && HasNext(a, m, b, frame) {
      var next := NextFrame(a, m, frame);
      Inside(a, b, next);
      FramesAreSafe(a, m, b, next);
      Stride(a, frame, next);
    }
  }

  lemma Inside(a: Arch, b: Bounds, f: nat)
    requires BoundsAreWords(a, b) && b.start >= FrameSize(a) && Contains(a, b, f)
    ensures b.end < f && f + FrameSize(a) < b.start < WordLimit(a)
  {
    assert Minus(a, b.start, FrameSize(a)) == b.start - FrameSize(a);
  }

  lemma Stride(a: Arch, x: nat, y: nat)
    requires IsAligned(a, x) && IsAligned(a, y) && x < y
    ensures x + 16 <= y
  {}

  lemma {:induction false} AscendingSpan(frames: seq<nat>)
    requires Ascending(frames) && frames != []
    ensures frames[0] + 16 * (|frames| - 1) <= frames[|frames| - 1]
  {
    if |frames| > 1 { AscendingSpan(frames[..|frames| - 1]); }
  }

  /** So the walk visits at most (start - end) / 16 frames on 64-bit targets, for
      any memory whatsoever, cyclic or corrupt. */
  lemma WalkIsBounded(a: Arch, m: Memory, b: Bounds, frame: nat)
    requires BoundsAreWords(a, b) && b.start >= FrameSize(a) && IsValidFrame(a, b, frame)
    ensures var n := |Frames(a, m, b, frame)|;
            && 16 * n + FrameSize(a) <= b.start - b.end + 15
            && (PtrSize(a) == 8 ==> n <= (b.start - b.end) / 16)
  {
    var fs := Frames(a, m, b, frame);
    FramesAreSafe(a, m, b, frame);
    if fs != [] {
      AscendingSpan(fs);
      assert fs[|fs| - 1] in fs;
    } else {
      assert Minus(a, b.start, FrameSize(a)) == b.start - FrameSize(a);
    }
  }

  // ----- backtrace

  // Registers of the stopped thread.  On x86 the link register reads as zero.
  datatype Context = Context(pc: nat, lr: nat, fp: nat)

  // Everything the walk would report without limits: the program counter, the
  // link register if it looks like a frame, and the return addresses.
  function FullStack(a: Arch, m: Memory, b: Bounds, c: Context, first: nat): seq<nat> {
    [c.pc] + (if IsValidFrame(a, b, c.lr) then [c.lr] else []) + Returns(a, m, Frames(a, m, b, first))
  }

  function Take(s: seq<nat>, n: nat): seq<nat> { if n <= |s| then s[..n] else s }

  function Drop(s: seq<nat>, n: nat): seq<nat> { if n <= |s| then s[n..] else [] }

  function Map(a: Arch, s: seq<nat>): (r: seq<nat>)
    ensures |r| == |s|
  {
    seq(|s|, i requires 0 <= i < |s| => PreviousInstruction(a, s[i]))
  }

  // The specification of backtrace's buffer: skip, cut to the depth, adjust.
  function Reported(a: Arch, full: seq<nat>, maxDepth: nat, skip: nat): seq<nat> {
    Map(a, Take(Drop(full, skip), maxDepth))
  }

  class Flag {
    var value: bool
    constructor (v: bool)
      ensures value == v
    {
      value := v;
    }
  }

  /** The frames backtrace dereferences are those of the chain, in order, as far
      as the depth allows; the log makes every dereference visible. */
  class Reader {
    const arch: Arch
    const memory: Memory
    var loads: seq<nat>

    constructor (a: Arch, m: Memory)
      ensures arch == a && memory == m && loads == []
    {
      arch, memory, loads := a, m, [];
    }

    method Load(frame: nat) returns (next: nat, ret: nat)
      requires memory.readable(frame)
      modifies this`loads
      ensures next == NextFrame(arch, memory, frame) && ret == ReturnAddress(arch, memory, frame)
      ensures loads == old(loads) + [frame]
    {
      next, ret := NextFrame(arch, memory, frame), ReturnAddress(arch, memory, frame);
      loads := loads + [frame];
    }
  }

  // One more element consumed, whether stored or skipped.
  lemma {:induction false} ReportedPush(a: Arch, s: seq<nat>, x: nat, maxDepth: nat, skip: nat)
    ensures Reported(a, s + [x], maxDepth, skip) ==
            if |s| < skip || |s| - skip >= maxDepth then Reported(a, s, maxDepth, skip)
            else Reported(a, s, maxDepth, skip) + [PreviousInstruction(a, x)]
  {
    var t := s + [x];
    if |s| < skip {
      assert Drop(t, skip) == [] && Drop(s, skip) == [];
    } else {
      assert Drop(t, skip) == Drop(s, skip) + [x];
      assert |Drop(s, skip)| == |s| - skip;
      if |s| - skip >= maxDepth {
        assert Take(Drop(t, skip), maxDepth) == Take(Drop(s, skip), maxDepth);
      } else {
        assert Take(Drop(t, skip), maxDepth) == Drop(s, skip) + [x];
      }
    }
  }

  /** backtrace refines the pure specification: whenever a walk takes place the
      buffer holds FullStack with `skip` dropped, cut to `maxDepth`, and the flag
      says exactly whether the whole chain was walked to its own end. */
  method Backtrace(reader: Reader, sameThread: bool, ownFrame: nat, context: Context, stateOk: bool,
                   addresses: array<nat>, b: Bounds, reached: Flag?, maxDepth: nat, skip: nat)
    returns (depth: nat)
    requires addresses.Length >= maxDepth && BoundsAreWords(reader.arch, b)
    modifies addresses, reached, reader`loads
    ensures var a, m := reader.arch, reader.memory;
            var first := if sameThread then ownFrame else context.fp;
            var full := FullStack(a, m, b, context, first);
            var walked := maxDepth > 0 && IsValid(b) && stateOk && IsValidFrame(a, b, first);
            && depth <= maxDepth
            && (!walked ==> depth == 0 && reader.loads == old(reader.loads) &&
                            (reached != null ==> reached.value == old(reached.value)))
            && (walked ==>
                  && addresses[..depth] == Reported(a, full, maxDepth, skip)
                  && (exists n: nat :: n <= |Frames(a, m, b, first)| &&
                                  reader.loads == old(reader.loads) + Frames(a, m, b, first)[..n])
                  && (reached != null ==>
                        (reached.value <==> Complete(a, m, b, first) && |full| <= skip + maxDepth)))
    ensures forall i :: maxDepth <= i < addresses.Length ==> addresses[i] == old(addresses[i])
  {
    hide Reported, PreviousInstruction, Minus, Contains, IsAligned;
    var a := reader.arch;
    var m := reader.memory;
    depth := 0;
    var toSkip := skip;
    if maxDepth == 0 || !IsValid(b) { return; }
    if !stateOk { return; }
    ghost var first := if sameThread then ownFrame else context.fp;
    ghost var full := FullStack(a, m, b, context, first);
    ghost var k := 0;     // how much of full has been consumed
    assert full[..0] == [];
    ReportedNone(a, maxDepth, skip);
    if toSkip == 0 {
      addresses[depth] := PreviousInstruction(a, context.pc);
      depth := depth + 1;
    } else {
      toSkip := toSkip - 1;
    }
    ReportedNext(a, full, k, maxDepth, skip);
    k := k + 1;
    if depth < maxDepth {
      if IsValidFrame(a, b, context.lr) {
        if toSkip == 0 {
          addresses[depth] := PreviousInstruction(a, context.lr);
          depth := depth + 1;
        } else {
          toSkip := toSkip - 1;
        }
        ReportedNext(a, full, k, maxDepth, skip);
        k := k + 1;
      }
    }
    var current := if sameThread then ownFrame else context.fp;
    if !IsValidFrame(a, b, current) { return 0; }

    var reachedEnd;
    depth, reachedEnd := WalkFrames(reader, addresses, b, current, maxDepth, depth, toSkip, full, k, skip);
    if reached != null { reached.value := reachedEnd; }
  }

  // How far the buffer is filled after k elements of the full stack.
  ghost predicate Filled(a: Arch, buffer: seq<nat>, full: seq<nat>, k: nat, depth: nat, toSkip: nat,
                         maxDepth: nat, skip: nat)
  {
    && k <= |full| && depth <= maxDepth <= |buffer|
    && (if k < skip then toSkip == skip - k && depth == 0 else toSkip == 0 && depth == k - skip)
    && buffer[..depth] == Reported(a, full[..k], maxDepth, skip)
  }

  // The frame loop of backtrace.
  method WalkFrames(reader: Reader, addresses: array<nat>, b: Bounds, first: nat, maxDepth: nat,
                    filled: nat, left: nat, ghost full: seq<nat>, ghost from: nat, ghost skip: nat)
    returns (depth: nat, reachedEnd: bool)
    requires 0 < maxDepth <= addresses.Length && IsValidFrame(reader.arch, b, first)
    requires Filled(reader.arch, addresses[..], full, from, filled, left, maxDepth, skip)
    requires if filled < maxDepth then full[from..] == Returns(reader.arch, reader.memory, Frames(reader.arch, reader.memory, b, first))
             else |full| >= from + |Frames(reader.arch, reader.memory, b, first)|
    modifies addresses, reader`loads
    ensures depth <= maxDepth
    ensures addresses[..depth] == Reported(reader.arch, full, maxDepth, skip)
    ensures forall i :: maxDepth <= i < addresses.Length ==> addresses[i] == old(addresses[i])
    ensures var frames := Frames(reader.arch, reader.memory, b, first);
            exists n: nat :: n <= |frames| && reader.loads == old(reader.loads) + frames[..n]
    ensures reachedEnd <==> Complete(reader.arch, reader.memory, b, first) && |full| <= skip + maxDepth
  {
    hide Reported, PreviousInstruction, Minus, Contains, IsAligned, NextFrame, ReturnAddress, Frames, Complete;
    var a, m := reader.arch, reader.memory;
    depth, reachedEnd := filled, false;
    var current, toSkip := first, left;
    ghost var frames := Frames(a, m, b, first);
    ghost var n: nat, k: nat := 0, from;
    FrameIsWord(a, b, first);
    while depth < maxDepth
      invariant n <= |frames| && Filled(a, addresses[..], full, k, depth, toSkip, maxDepth, skip)
      invariant depth < maxDepth ==> full[k..] == Returns(a, m, frames[n..])
      invariant |full| >= k + |frames| - n
      invariant frames[n..] == Frames(a, m, b, current) && reader.loads == old(reader.loads) + frames[..n]
      invariant Complete(a, m, b, first) == Complete(a, m, b, current) && current < WordLimit(a)
      invariant forall i :: maxDepth <= i < addresses.Length ==> addresses[i] == old(addresses[i])
      invariant !reachedEnd
      decreases WordLimit(a) - current
    {
      FramesUnfold(a, m, b, current);
      if !m.readable(current) {
        assert k == |full|;
        break;
      }
      assert frames[n] == current;
      var next, ret := reader.Load(current);
      assert frames[..n + 1] == frames[..n] + [current];
      assert |full[k..]| > 0 && full[k..][0] == ret;
      ghost var before := addresses[..depth];
      if toSkip == 0 {
        addresses[depth] := PreviousInstruction(a, ret);
        depth := depth + 1;
      } else {
        toSkip := toSkip - 1;
      }
      Consume(a, addresses[..], full, k, depth, toSkip, maxDepth, skip, before);
      assert full[k + 1..] == full[k..][1..] && frames[n + 1..] == frames[n..][1..];
      k, n := k + 1, n + 1;
      if next > current && IsValidFrame(a, b, next) {
        current := next;
        FrameIsWord(a, b, current);
      } else {
        assert k == |full|;
        reachedEnd := true;
        break;
      }
    }
    CompleteHasFrame(a, m, b, current);
    if k < |full| { ReportedPrefix(a, full, k, maxDepth, skip); } else { assert full[..k] == full; }
  }

  lemma FramesUnfold(a: Arch, m: Memory, b: Bounds, f: nat)
    requires f < WordLimit(a)
    ensures !m.readable(f) ==> Frames(a, m, b, f) == [] && !Complete(a, m, b, f)
    ensures m.readable(f) ==> Frames(a, m, b, f) != [] && Frames(a, m, b, f)[0] == f
    ensures m.readable(f) && HasNext(a, m, b, f) ==>
              && Frames(a, m, b, f)[1..] == Frames(a, m, b, NextFrame(a, m, f))
              && Complete(a, m, b, f) == Complete(a, m, b, NextFrame(a, m, f))
    ensures m.readable(f) && !HasNext(a, m, b, f) ==> Frames(a, m, b, f)[1..] == [] && Complete(a, m, b, f)
  {}

  // Complete and the frames: a complete chain has at least one frame.
  lemma CompleteHasFrame(a: Arch, m: Memory, b: Bounds, f: nat)
    ensures Complete(a, m, b, f) ==> Frames(a, m, b, f) != []
  {}

  // Taking one more element of the full stack, stored or skipped.
  lemma Consume(a: Arch, buffer: seq<nat>, full: seq<nat>, k: nat, depth: nat, toSkip: nat,
                maxDepth: nat, skip: nat, before: seq<nat>)
    requires k < |full| && before == Reported(a, full[..k], maxDepth, skip) && depth <= maxDepth <= |buffer|
    requires if k < skip then toSkip == skip - k - 1 && depth == 0 && before == []
             else toSkip == 0 && depth == k - skip + 1 && buffer[..depth] == before + [PreviousInstruction(a, full[k])]
    ensures Filled(a, buffer, full, k + 1, depth, toSkip, maxDepth, skip)
  {
    hide Reported;
    ReportedNext(a, full, k, maxDepth, skip);
  }

  lemma FrameIsWord(a: Arch, b: Bounds, f: nat)
    requires IsValidFrame(a, b, f)
    ensures f < WordLimit(a)
  {}

  lemma ReportedNone(a: Arch, maxDepth: nat, skip: nat)
    ensures Reported(a, [], maxDepth, skip) == []
  {}

  lemma ReportedNext(a: Arch, s: seq<nat>, k: nat, maxDepth: nat, skip: nat)
    requires k < |s|
    ensures Reported(a, s[..k + 1], maxDepth, skip) ==
            if k < skip || k - skip >= maxDepth then Reported(a, s[..k], maxDepth, skip)
            else Reported(a, s[..k], maxDepth, skip) + [PreviousInstruction(a, s[k])]
  {
    assert s[..k + 1] == s[..k] + [s[k]];
    ReportedPush(a, s[..k], s[k], maxDepth, skip);
  }

  // Once the buffer is full the rest does not matter.
  lemma ReportedPrefix(a: Arch, s: seq<nat>, k: nat, maxDepth: nat, skip: nat)
    requires k <= |s| && k >= skip + maxDepth
    ensures Reported(a, s[..k], maxDepth, skip) == Reported(a, s, maxDepth, skip)
  {
    assert Take(Drop(s[..k], skip), maxDepth) == Take(Drop(s, skip), maxDepth);
  }

  // ----- a stack in memory, and what the walk makes of it

  function Half(a: Arch): nat { if a.X86_64? || a.ARM64? then 8 else 4 }

  function Words(a: Arch): nat { if a.X86_64? || a.ARM64? then 0x1_0000_0000_0000_0000 else 0x1_0000_0000 }

  // A whole frame at f fits strictly inside the stack and is aligned.
  predicate OnStack(a: Arch, b: Bounds, f: nat) {
    b.end < f && f + 2 * Half(a) < b.start && f % 16 == if a.ARM? then 8 else 0
  }

  // Every frame is readable and on the stack.
  ghost predicate Stacked(a: Arch, m: Memory, b: Bounds, frames: seq<nat>) {
    |frames| > 0 && forall i :: 0 <= i < |frames| ==> m.readable(frames[i]) && OnStack(a, b, frames[i])
  }

  // Each frame holds the address of the next one above it, the last one that of no
  // frame above it.
  ghost predicate Chained(a: Arch, m: Memory, b: Bounds, frames: seq<nat>)
    requires |frames| > 0
  {
    var last := frames[|frames| - 1];
    && (forall i :: 0 <= i < |frames| - 1 ==> m.word(frames[i]) == frames[i + 1] > frames[i])
    && m.word(last) < Words(a) && (m.word(last) <= last || !OnStack(a, b, m.word(last)))
  }

  // One word on, each frame holds its return address.
  ghost predicate Returning(a: Arch, m: Memory, frames: seq<nat>, calls: seq<nat>) {
    |frames| == |calls| && forall i :: 0 <= i < |frames| ==> m.word(frames[i] + Half(a)) == calls[i] < Words(a)
  }

  ghost predicate LaidOut(a: Arch, m: Memory, b: Bounds, frames: seq<nat>, calls: seq<nat>) {
    Stacked(a, m, b, frames) && Chained(a, m, b, frames) && Returning(a, m, frames, calls)
  }

  // y is the address of the instruction before x, as far as x tells.
  predicate Before(a: Arch, x: nat, y: nat) {
    x >= 4 ==>
      match a
      case ARM => y % 2 == 0 && x - 4 <= y <= x - 3
      case ARM64 => y == x - 4
      case _ => y == x - 1
  }

  lemma OnStackIsValid(a: Arch, b: Bounds, f: nat)
    requires BoundsAreWords(a, b) && b.start >= 2 * Half(a)
    ensures IsValidFrame(a, b, f) <==> OnStack(a, b, f)
  {
    assert Minus(a, b.start, FrameSize(a)) == b.start - FrameSize(a);
  }

  lemma MinusIs(a: Arch, x: nat, y: nat)
    requires y <= x < WordLimit(a)
    ensures Minus(a, x, y) == x - y
  {}

  lemma AdjustedIsBefore(a: Arch, x: nat)
    requires x < Words(a)
    ensures Before(a, x, PreviousInstruction(a, x))
  {
    hide Minus;
    if x >= 4 {
      MinusIs(a, x, 4);
      MinusIs(a, x, 3);
      MinusIs(a, x, 1);
    }
  }

  // What the walk makes of the first frame.
  lemma FirstFrame(a: Arch, m: Memory, b: Bounds, frames: seq<nat>)
    requires BoundsAreWords(a, b) && b.start >= 2 * Half(a) && Stacked(a, m, b, frames) && Chained(a, m, b, frames)
    ensures var f := frames[0];
            && m.readable(f) && f < WordLimit(a) && IsValidFrame(a, b, f)
            && (HasNext(a, m, b, f) <==> |frames| > 1) && (|frames| > 1 ==> NextFrame(a, m, f) == frames[1])
  {
    hide IsValidFrame, NextFrame;
    var f := frames[0];
    OnStackIsValid(a, b, f);
    if |frames| > 1 { assert m.word(f) == frames[0 + 1] && OnStack(a, b, frames[1]); }
    NextFrameIs(a, m, f);
    OnStackIsValid(a, b, m.word(f));
  }

  lemma NextFrameIs(a: Arch, m: Memory, f: nat)
    requires m.word(f) < Words(a)
    ensures NextFrame(a, m, f) == m.word(f)
  {}

  lemma OtherFrames(a: Arch, m: Memory, b: Bounds, frames: seq<nat>)
    requires Stacked(a, m, b, frames) && |frames| > 1 && Chained(a, m, b, frames)
    ensures Stacked(a, m, b, frames[1..]) && Chained(a, m, b, frames[1..])
  {
    hide OnStack, Words;
    var fs := frames[1..];
    forall i | 0 <= i < |fs| - 1 ensures m.word(fs[i]) == fs[i + 1] > fs[i] {
      assert m.word(frames[i + 1]) == frames[i + 1 + 1];
    }
  }

  // The chain read from such memory is the chain laid out.
  lemma {:induction false} LaidOutChain(a: Arch, m: Memory, b: Bounds, frames: seq<nat>)
    requires BoundsAreWords(a, b) && b.start >= 2 * Half(a) && Stacked(a, m, b, frames) && Chained(a, m, b, frames)
    ensures Frames(a, m, b, frames[0]) == frames && Complete(a, m, b, frames[0])
    decreases |frames|
  {
    FirstFrame(a, m, b, frames);
    hide HasNext, Stacked, Chained, Half, WordLimit, NextFrame, IsValidFrame;
    if |frames| == 1 {
      assert frames == [frames[0]];
    } else {
      OtherFrames(a, m, b, frames);
      LaidOutChain(a, m, b, frames[1..]);
      assert frames == [frames[0]] + frames[1..];
    }
  }

  lemma LaidOutReturns(a: Arch, m: Memory, frames: seq<nat>, calls: seq<nat>)
    requires Returning(a, m, frames, calls)
    ensures Returns(a, m, frames) == calls
    ensures forall i :: 0 <= i < |calls| ==> calls[i] < Words(a)
  {
    forall i | 0 <= i < |frames| ensures ReturnAddress(a, m, frames[i]) == calls[i] < Words(a) {
      assert m.word(frames[i] + Half(a)) == calls[i] < Words(a);
    }
  }

  // All there is to find.
  function Calls(a: Arch, b: Bounds, context: Context, calls: seq<nat>): seq<nat> {
    [context.pc] + (if OnStack(a, b, context.lr) then [context.lr] else []) + calls
  }

  lemma LaidOutStack(a: Arch, m: Memory, b: Bounds, context: Context, frames: seq<nat>, calls: seq<nat>)
    requires BoundsAreWords(a, b) && b.start >= 2 * Half(a) && context.pc < Words(a) && context.lr < Words(a)
    requires LaidOut(a, m, b, frames, calls)
    ensures IsValidFrame(a, b, frames[0]) && Complete(a, m, b, frames[0])
    ensures FullStack(a, m, b, context, frames[0]) == Calls(a, b, context, calls)
    ensures forall i :: 0 <= i < |Calls(a, b, context, calls)| ==> Calls(a, b, context, calls)[i] < Words(a)
  {
    FirstFrame(a, m, b, frames);
    LaidOutChain(a, m, b, frames);
    LaidOutReturns(a, m, frames, calls);
    OnStackIsValid(a, b, context.lr);
    hide Stacked, Chained, Returning, IsValidFrame, OnStack, Complete, Frames, Returns;
  }

  /** Of a stack laid out in memory backtrace finds the program counter, the link
      register if it looks like a frame, and the return addresses in order, without the
      first `skip` of them and as far as the depth goes, each moved to the instruction
      before; and it reports the end of the stack if that was all. */
  method BacktraceOfLaidOutStack(a: Arch, m: Memory, b: Bounds, context: Context, sameThread: bool, ownFrame: nat,
                                 frames: seq<nat>, calls: seq<nat>, maxDepth: nat, skip: nat)
    returns (found: seq<nat>, reachedEnd: bool)
    requires 0 < b.end < b.start && 2 * Half(a) <= b.start < Words(a) && context.pc < Words(a) && context.lr < Words(a)
    requires LaidOut(a, m, b, frames, calls) && maxDepth > 0
    requires frames[0] == if sameThread then ownFrame else context.fp
    ensures var stack := [context.pc] + (if OnStack(a, b, context.lr) then [context.lr] else []) + calls;
            && |found| == (if |stack| <= skip then 0 else if |stack| - skip <= maxDepth then |stack| - skip else maxDepth)
            && (forall i :: 0 <= i < |found| ==> Before(a, stack[skip + i], found[i]))
            && (reachedEnd <==> |stack| <= skip + maxDepth)
  {
    hide Frames, Complete, FullStack, Reported, Returns, IsValidFrame, LaidOut, Before, OnStack;
    LaidOutStack(a, m, b, context, frames, calls);
    ReportedIsBefore(a, Calls(a, b, context, calls), maxDepth, skip);
    var reader := new Reader(a, m);
    var addresses := new nat[maxDepth];
    var reached := new Flag(false);
    var depth := Backtrace(reader, sameThread, ownFrame, context, true, addresses, b, reached, maxDepth, skip);
    found, reachedEnd := addresses[..depth], reached.value;
  }

  lemma ReportedIsBefore(a: Arch, stack: seq<nat>, maxDepth: nat, skip: nat)
    requires forall i :: 0 <= i < |stack| ==> stack[i] < Words(a)
    ensures var r := Reported(a, stack, maxDepth, skip);
            && |r| == (if |stack| <= skip then 0 else if |stack| - skip <= maxDepth then |stack| - skip else maxDepth)
            && forall i :: 0 <= i < |r| ==> Before(a, stack[skip + i], r[i])
  {
    hide Before, PreviousInstruction;
    var r := Reported(a, stack, maxDepth, skip);
    forall i | 0 <= i < |r| ensures Before(a, stack[skip + i], r[i]) { AdjustedIsBefore(a, stack[skip + i]); }
  }

  // Two frames on an otherwise empty stack, on every architecture.
  lemma SomeLaidOutStack(a: Arch) returns (m: Memory, b: Bounds, frames: seq<nat>, calls: seq<nat>)
    ensures |frames| == 2 && 0 < b.end < b.start && 2 * Half(a) <= b.start < Words(a) && LaidOut(a, m, b, frames, calls)
  {
    var low, high := if a.ARM? then 0x2008 else 0x2000, if a.ARM? then 0x2018 else 0x2020;
    m := Memory(f => true, f => if f == low then high else if f == low + Half(a) then 0x5004
                                else if f == high + Half(a) then 0x6004 else 0);
    b, frames, calls := Bounds(0x4000, 0x1000), [low, high], [0x5004, 0x6004];
    assert Returning(a, m, frames, calls);
  }

  /** The flag is not about the depth alone: at a first frame that cannot be read
      the walk ends after the program counter, with 127 slots to spare, and the flag
      is lowered. */
  method UnreadableFirstFrame(a: Arch, pc: nat) returns (depth: nat, reachedEnd: bool)
    ensures depth == 1 && !reachedEnd
  {
    hide Contains, IsAligned, PreviousInstruction;
    var b, fp := Bounds(0x4000, 0x1000), 0x2000 + if a.ARM? then 8 else 0;
    assert IsValidFrame(a, b, fp) && !IsValidFrame(a, b, 0) by { PlainFrame(a); }
    var reader := new Reader(a, Memory(f => false, f => 0));
    var addresses := new nat[128];
    var reached := new Flag(true);
    depth := Backtrace(reader, false, 0, Context(pc, 0, fp), true, addresses, b, reached, 128, 0);
    assert FullStack(a, reader.memory, b, Context(pc, 0, fp), fp) == [pc];
    assert |addresses[..depth]| == 1;
    reachedEnd := reached.value;
  }

  lemma PlainFrame(a: Arch)
    ensures IsValidFrame(a, Bounds(0x4000, 0x1000), 0x2000 + if a.ARM? then 8 else 0)
    ensures !IsValidFrame(a, Bounds(0x4000, 0x1000), 0)
  {}
}
