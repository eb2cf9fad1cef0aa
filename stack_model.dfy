/** The branch-back stack as a value: its entries (bottom first, top last)
    and its push/pop counter, with one function per transition the stack
    class performs. The class methods are specified by these functions and
    the lemmas here state what sequences of transitions do. */
module StackModel {

  import opened KeyModel

  datatype StackState<T> = StackState(entries: seq<T>, delta: int)

  /** The counter equals the number of entries. */
  predicate Balanced<T>(s: StackState<T>)
  {
    s.delta == |s.entries|
  }

  /** The counter is at least the number of entries. */
  predicate CounterCovers<T>(s: StackState<T>)
  {
    s.delta >= |s.entries|
  }

  /** `push`: an absent palette is ignored; a dynamic palette already on the
      stack is ignored; anything else becomes the new top and is counted. */
  function Push<T(==)>(s: StackState<T>, p: Option<T>, dynamic: bool): (s': StackState<T>)
  {
    if p.None? then s
    else if p.value in s.entries && dynamic then s
    else StackState(s.entries + [p.value], s.delta + 1)
  }

  /** `pop`: on an empty stack nothing changes and nothing is returned;
      otherwise the top is removed, returned and the counter decremented. */
  function Pop<T>(s: StackState<T>): (r: (StackState<T>, Option<T>))
  {
    if |s.entries| == 0 then (s, None)
    else (StackState(s.entries[..|s.entries| - 1], s.delta - 1), Some(s.entries[|s.entries| - 1]))
  }

  /** The back-key handler's `Array.pop()` on the stack's array: the top is
      removed and returned but the counter is left as it was. */
  function BackPop<T>(s: StackState<T>): (r: (StackState<T>, Option<T>))
  {
    if |s.entries| == 0 then (s, None)
    else (StackState(s.entries[..|s.entries| - 1], s.delta), Some(s.entries[|s.entries| - 1]))
  }

  /** `peek(i)`: the entry `i` places below the top, or nothing when the stack
      is empty or has no such entry (a JavaScript read past the end of the
      array gives `undefined`, which is absent as well). */
  function Peek<T>(s: StackState<T>, i: int): (r: Option<T>)
    ensures r.Some? <==> 0 <= i < |s.entries|
    ensures r.Some? ==> r.value == s.entries[|s.entries| - 1 - i]
  {
    if |s.entries| == 0 then None
    else
      var index := |s.entries| - i - 1;
      if 0 <= index < |s.entries| then Some(s.entries[index]) else None
  }

  /** The outcome of `peek` as the source writes it. */
  datatype PeekOutcome<T> = Returned(value: Option<T>) | ReferenceError

  /** `peek` as written: on a non-empty stack it assigns to the undeclared
      name `index`, which raises a ReferenceError in strict-mode code (every
      class body is strict), whatever the requested distance. */
  function PeekAsWritten<T>(s: StackState<T>, i: int): (r: PeekOutcome<T>)
  {
    if |s.entries| == 0 then Returned(None) else ReferenceError
  }

  /** On every non-empty stack the written `peek` raises where the documented
      one returns the top. */
  lemma PeekAsWrittenRaises<T>(s: StackState<T>)
    requires |s.entries| > 0
    ensures PeekAsWritten(s, 0) == ReferenceError
    ensures Peek(s, 0) == Some(s.entries[|s.entries| - 1])
  {
  }

  /** A push that is not ignored is undone by the next pop, which returns the
      pushed palette; `peek(0)` sees it in between. */
  lemma PushThenPop<T>(s: StackState<T>, p: T, dynamic: bool)
    requires !(dynamic && p in s.entries)
    ensures Peek(Push(s, Some(p), dynamic), 0) == Some(p)
    ensures Pop(Push(s, Some(p), dynamic)) == (s, Some(p))
    ensures Peek(Pop(Push(s, Some(p), dynamic)).0, 0) == Peek(s, 0)
  {
    assert (s.entries + [p])[..|s.entries|] == s.entries;
  }

  /** A dynamic palette already on the stack cannot be pushed again, while a
      non-dynamic one can, growing the stack by one. */
  lemma PushDuplicate<T>(s: StackState<T>, p: T, dynamic: bool)
    requires p in s.entries
    ensures dynamic ==> Push(s, Some(p), dynamic) == s
    ensures !dynamic ==> |Push(s, Some(p), dynamic).entries| == |s.entries| + 1
  {
  }

  // ---------------------------------------------------------------------
  // Sequences of stack operations

  datatype Op<T> = PushOp(p: Option<T>, dynamic: bool) | PopOp | BackPopOp

  function Step<T(==)>(s: StackState<T>, op: Op<T>): StackState<T>
  {
    match op
    case PushOp(p, dynamic) => Push(s, p, dynamic)
    case PopOp => Pop(s).0
    case BackPopOp => BackPop(s).0
  }

  function Run<T(==)>(s: StackState<T>, ops: seq<Op<T>>): StackState<T>
    decreases |ops|
  {
    if |ops| == 0 then s else Run(Step(s, ops[0]), ops[1..])
  }

  predicate NoBackPop<T>(ops: seq<Op<T>>)
  {
    forall i :: 0 <= i < |ops| ==> !ops[i].BackPopOp?
  }

  /** `push` and `pop` alone keep the difference between the counter and
      the number of entries; from a balanced stack the counter therefore
      always equals the length and is never negative. */
  lemma {:induction false} RunKeepsGap<T>(s: StackState<T>, ops: seq<Op<T>>)
    requires NoBackPop(ops)
    ensures Run(s, ops).delta - |Run(s, ops).entries| == s.delta - |s.entries|
    ensures Balanced(s) ==> Balanced(Run(s, ops)) && Run(s, ops).delta >= 0
    decreases |ops|
  {
    if |ops| > 0 {
      var t := Step(s, ops[0]);
      assert t.delta - |t.entries| == s.delta - |s.entries|;
      assert NoBackPop(ops[1..]) by {
        forall i | 0 <= i < |ops[1..]| ensures !ops[1..][i].BackPopOp? {
          assert ops[1..][i] == ops[i + 1];
        }
      }
      RunKeepsGap(t, ops[1..]);
    }
  }

  /** With the back handler's pops included the counter never falls below
      the number of entries, so it is still never negative. */
  lemma {:induction false} RunCounterCovers<T>(s: StackState<T>, ops: seq<Op<T>>)
    requires CounterCovers(s)
    ensures CounterCovers(Run(s, ops)) && Run(s, ops).delta >= 0
    decreases |ops|
  {
    if |ops| > 0 {
      var t := Step(s, ops[0]);
      assert CounterCovers(t);
      RunCounterCovers(t, ops[1..]);
    }
  }

  /** A back-handler pop of a balanced non-empty stack leaves the counter one
      above the length, and no later `push` or `pop` brings it back. */
  lemma BackPopUnbalances<T>(s: StackState<T>, ops: seq<Op<T>>)
    requires Balanced(s) && |s.entries| > 0
    requires NoBackPop(ops)
    ensures Run(BackPop(s).0, ops).delta == |Run(BackPop(s).0, ops).entries| + 1
  {
    RunKeepsGap(BackPop(s).0, ops);
  }

  /** Forward to "mouse" from "main", then back: the stack is empty again but
      the counter reads 1, not 0. */
  lemma ForwardThenBack<T>(main: T)
    ensures var pushed := Push(StackState([], 0), Some(main), false);
            var back := BackPop(pushed);
            back.1 == Some(main) && back.0 == StackState([], 1)
  {
  }
}
