/**
 The sharing variant of `FunctionWrapper<R(Args...)>` (function/inc/function.h):
 the wrapper holds its node through `std::shared_ptr`, so copying makes the
 destination alias the source's node (or copy its null pointer) and allocates
 nothing, while moving hands the node over and leaves the source empty. No
 operation dereferences a pointer except invocation, which checks it first, so
 every operation is defined on every existing wrapper.

 The operations this header shares with the other one are in `Core`; this
 module holds the copy operations, the meaning of a program of operations, and
 what they promise about ownership.
 */
module SharedFunction {
  import opened Wrappers
  import opened Objects
  import opened Core

  /**
   `FunctionWrapper(const FunctionWrapper& other)`: the new wrapper points at the
   very node `other` points at, or is empty if `other` is; nothing is allocated
   and every existing wrapper stays as it was.
   */
  function CopyConstruct<A, R>(s: State<A, R>, i: nat): (t: State<A, R>)
    requires i < |s.vars|
    ensures Appended(s, t) && NoAllocation(s, t)
    ensures t.vars[|s.vars|] == s.vars[i]
    ensures Valid(s) ==> Valid(t)
  {
    s.(vars := s.vars + [s.vars[i]])
  }

  /**
   `operator=(const FunctionWrapper& other)`: wrapper `dst` drops its previous
   node and points at the very node `other` points at (or becomes empty if
   `other` is); nothing is allocated and every other wrapper stays as it was.
   */
  function CopyAssign<A, R>(s: State<A, R>, dst: nat, src: nat): (t: State<A, R>)
    requires dst < |s.vars| && src < |s.vars|
    ensures OnlyChanged(s, t, dst) && NoAllocation(s, t)
    ensures t.vars[dst] == s.vars[src] && t.vars[src] == s.vars[src]
    ensures Valid(s) ==> Valid(t)
  {
    s.(vars := s.vars[dst := s.vars[src]])
  }

  /**
   One operation of a program, or `None` when it names a wrapper that does not
   exist; unlike the owning variant, copying from an empty wrapper is defined.
   */
  function Step<A, R>(s: State<A, R>, op: Op<A, R>): (r: Option<State<A, R>>)
    requires Valid(s)
    ensures r.Some? <==> InRange(s, op)
    ensures r.Some? ==> Valid(r.value) && |r.value.vars| >= |s.vars|
  {
    if !InRange(s, op) then None
    else
      match op
      case NewEmpty => Some(ConstructEmpty(s))
      case NewFrom(f) => Some(ConstructFrom(s, f))
      case NewCopy(i) => Some(CopyConstruct(s, i))
      case NewMove(i) => Some(MoveConstruct(s, i))
      case SetNull(i) => Some(AssignNull(s, i))
      case SetCallable(i, f) => Some(AssignCallable(s, i, f))
      case SetCopy(i, j) => Some(CopyAssign(s, i, j))
      case SetMove(i, j) => Some(MoveAssign(s, i, j))
  }

  /** A whole program, or `None` if one of its operations names a missing wrapper. */
  function Run<A, R>(s: State<A, R>, ops: seq<Op<A, R>>): (r: Option<State<A, R>>)
    requires Valid(s)
    ensures r.Some? ==> Valid(r.value) && |r.value.vars| >= |s.vars|
    decreases |ops|
  {
    if ops == [] then Some(s)
    else
      match Step(s, ops[0])
      case None => None
      case Some(t) => Run(t, ops[1..])
  }

  // ---------------------------------------------------------------------------
  // Properties

  /**
   A copy aliases its source, so the two give the same result for every
   argument, including the "empty object" error when the source is empty.
   */
  lemma CopyBehavesAlike<A, R>(s: State<A, R>, dst: nat, src: nat, x: A)
    requires Valid(s) && dst < |s.vars| && src < |s.vars|
    ensures Invoke(CopyConstruct(s, src), |s.vars|, x) == Invoke(s, src, x)
    ensures Invoke(CopyAssign(s, dst, src), dst, x) == Invoke(s, src, x)
  {
  }

  /**
   An operation that does not name wrapper `k` leaves the node `k` reaches, and
   so everything a call through `k` returns, unchanged.
   */
  lemma StepKeepsOthers<A, R>(s: State<A, R>, op: Op<A, R>, k: nat)
    requires Valid(s) && InRange(s, op) && k < |s.vars| && !Touches(op, k)
    ensures k < |Step(s, op).value.vars|
    ensures Target(Step(s, op).value, k) == Target(s, k)
  {
  }

  /**
   Sharing breaks exclusive ownership: copying a wrapper built from a callable
   leaves two wrappers pointing at one node.
   */
  lemma CopySharesNode<A, R>(f: A -> R)
    ensures var t := CopyConstruct(ConstructFrom(Initial<A, R>(), f), 0);
      Valid(t) && t.vars[0].ptr.Some? && t.vars[0] == t.vars[1] && !Exclusive(t)
  {
    InitialValid<A, R>();
  }

  /**
   Copying an empty wrapper is defined, in construction and in assignment, and
   yields an empty wrapper that throws "empty object" when invoked.
   */
  lemma CopyOfEmptyIsEmpty<A, R>(s: State<A, R>, dst: nat, src: nat, x: A)
    requires Valid(s) && dst < |s.vars| && src < |s.vars| && s.vars[src] == Null
    ensures Step(s, NewCopy(src)) == Some(CopyConstruct(s, src))
    ensures Step(s, SetCopy(dst, src)) == Some(CopyAssign(s, dst, src))
    ensures Invoke(CopyConstruct(s, src), |s.vars|, x) == Failure(EmptyObject)
    ensures Invoke(CopyAssign(s, dst, src), dst, x) == Failure(EmptyObject)
  {
  }
}
