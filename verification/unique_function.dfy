/**
 The owning variant of `FunctionWrapper<R(Args...)>` (Function/inc/function.h):
 the wrapper owns its node through `std::unique_ptr`, so copying clones the node
 and every copy is independent, while moving hands the very same node over and
 leaves the source empty. Copying from an empty wrapper dereferences a null
 pointer, so the copy operations demand a non-empty source.

 The operations this header shares with the other one are in `Core`; this
 module holds the copy operations, the meaning of a program of operations, and
 what they promise about ownership.
 */
module UniqueFunction {
  import opened Wrappers
  import opened Objects
  import opened Core

  /**
   `FunctionBase::clone` / `ConcreteFunction::clone`: a new node, at an address
   distinct from the original's, holding a copy of the original's callable.
   */
  function Clone<A, R>(s: State<A, R>, a: Addr): (r: (State<A, R>, Addr))
    requires Valid(s) && a in s.store
    ensures r.1 !in s.store && r.1 != a
    ensures r.0.store == s.store[r.1 := s.store[a]]
    ensures r.0.vars == s.vars && Valid(r.0)
  {
    Alloc(s, s.store[a])
  }

  /**
   `FunctionWrapper(const FunctionWrapper& other)`: the new wrapper owns a fresh
   clone of `other`'s node; `other` and every other wrapper stay as they were.
   `other` must be non-empty, because its pointer is dereferenced.
   */
  function CopyConstruct<A, R>(s: State<A, R>, i: nat): (t: State<A, R>)
    requires Valid(s) && i < |s.vars| && s.vars[i].ptr.Some?
    ensures Appended(s, t)
    ensures HoldsFresh(s, t, |s.vars|, s.store[s.vars[i].ptr.value])
    ensures t.vars[|s.vars|] != t.vars[i]
    ensures Valid(t)
  {
    var (s', a) := Clone(s, s.vars[i].ptr.value);
    s'.(vars := s'.vars + [FunctionWrapper(Some(a))])
  }

  /**
   `operator=(const FunctionWrapper& rhs)`: clones `rhs`'s node and swaps the
   clone in, so wrapper `dst` owns a fresh copy while `rhs` and every other
   wrapper stay as they were; this also holds for self-assignment. `rhs` must be
   non-empty.
   */
  function CopyAssign<A, R>(s: State<A, R>, dst: nat, src: nat): (t: State<A, R>)
    requires Valid(s) && dst < |s.vars| && src < |s.vars| && s.vars[src].ptr.Some?
    ensures OnlyChanged(s, t, dst)
    ensures HoldsFresh(s, t, dst, s.store[s.vars[src].ptr.value])
    ensures Valid(t)
  {
    var (s', a) := Clone(s, s.vars[src].ptr.value);
    s'.(vars := s'.vars[dst := FunctionWrapper(Some(a))])
  }

  /** The operation is defined: its wrappers exist and no copy reads a null pointer. */
  predicate Defined<A, R>(s: State<A, R>, op: Op<A, R>) {
    && InRange(s, op)
    && (op.NewCopy? ==> s.vars[op.src].ptr.Some?)
    && (op.SetCopy? ==> s.vars[op.src].ptr.Some?)
  }

  /**
   One operation of a program, or `None` when it is undefined: it names a
   wrapper that does not exist, or it copies from an empty wrapper.
   */
  function Step<A, R>(s: State<A, R>, op: Op<A, R>): (r: Option<State<A, R>>)
    requires Valid(s)
    ensures r.Some? <==> Defined(s, op)
    ensures r.Some? ==> Valid(r.value) && |r.value.vars| >= |s.vars|
  {
    if !Defined(s, op) then None
    else
      match op
      case NewEmpty => Some(ConstructEmpty(s))
      case NewFrom(f) => Some(ConstructFrom(s, f))
      case NewCopy(i) => Some(CopyConstruct(s, i))
      case NewMove(i) => Some(MoveConstruct(s, i))
      case SetNull(i) => Some(AssignNull(s, i))
      case SetCallable(i, f) => Some(AssignCallable(s, i, f))
      case SetCopy(i, j) => Some(CopyAssign(s, i, j))
      case SetMove(i, j) => Some(MoveAssign(s, i, j))
  }

  /** A whole program, or `None` if one of its operations is undefined. */
  function Run<A, R>(s: State<A, R>, ops: seq<Op<A, R>>): (r: Option<State<A, R>>)
    requires Valid(s)
    ensures r.Some? ==> Valid(r.value) && |r.value.vars| >= |s.vars|
    decreases |ops|
  {
    if ops == [] then Some(s)
    else
      match Step(s, ops[0])
      case None => None
      case Some(t) => Run(t, ops[1..])
  }

  // ---------------------------------------------------------------------------
  // Properties

  /** A copy and its source give the same result for every argument. */
  lemma CopyBehavesAlike<A, R>(s: State<A, R>, i: nat, x: A)
    requires Valid(s) && i < |s.vars| && s.vars[i].ptr.Some?
    ensures Invoke(CopyConstruct(s, i), |s.vars|, x) == Invoke(s, i, x)
    ensures Invoke(CopyConstruct(s, i), i, x) == Invoke(s, i, x)
  {
  }

  /**
   After `w = other` the target behaves as `other` did, and `other` still does;
   for `w = w` the wrapper keeps its behaviour.
   */
  lemma CopyAssignBehavesAlike<A, R>(s: State<A, R>, dst: nat, src: nat, x: A)
    requires Valid(s) && dst < |s.vars| && src < |s.vars| && s.vars[src].ptr.Some?
    ensures Invoke(CopyAssign(s, dst, src), dst, x) == Invoke(s, src, x)
    ensures Invoke(CopyAssign(s, dst, src), src, x) == Invoke(s, src, x)
  {
  }

  /**
   Independence of copies: an operation that does not name wrapper `k` leaves
   the node `k` reaches, and so everything a call through `k` returns, unchanged.
   */
  lemma StepKeepsOthers<A, R>(s: State<A, R>, op: Op<A, R>, k: nat)
    requires Valid(s) && Defined(s, op) && k < |s.vars| && !Touches(op, k)
    ensures k < |Step(s, op).value.vars|
    ensures Target(Step(s, op).value, k) == Target(s, k)
  {
  }

  /** Every defined operation keeps ownership exclusive. */
  lemma StepKeepsExclusive<A, R>(s: State<A, R>, op: Op<A, R>)
    requires Valid(s) && Exclusive(s) && Defined(s, op)
    ensures Exclusive(Step(s, op).value)
  {
  }

  /**
   Exclusive ownership is an invariant of every program that never copies from
   an empty wrapper: no two wrappers ever share a node.
   */
  lemma {:induction false} RunKeepsExclusive<A, R>(s: State<A, R>, ops: seq<Op<A, R>>)
    requires Valid(s) && Exclusive(s) && Run(s, ops).Some?
    ensures Exclusive(Run(s, ops).value)
    decreases |ops|
  {
    if ops != [] {
      StepKeepsExclusive(s, ops[0]);
      RunKeepsExclusive(Step(s, ops[0]).value, ops[1..]);
    }
  }
}
