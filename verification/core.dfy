/**
 The operations both headers implement alike. Function/inc/function.h (owning,
 through `std::unique_ptr`) and function/inc/function.h (sharing, through
 `std::shared_ptr`) differ only in how they copy; construction, moves, the
 null and callable assignments, the null tests and invocation have the same
 effect on the pointer in both, and are defined once here.

 Constructors append a wrapper to the program state (the new wrapper is
 `vars[|s.vars|]`); assignments and moves update wrappers in place.
 */
module Core {
  import opened Wrappers
  import opened Objects

  /** `explicit operator bool`: the pointer is non-null. */
  function IsBound(w: FunctionWrapper): (b: bool)
    ensures b <==> w != Null
  {
    w.ptr != None
  }

  /** `operator==(nullptr)`: the negation of `operator bool`. */
  function EqualsNull(w: FunctionWrapper): (b: bool)
    ensures b <==> w == Null
  {
    !IsBound(w)
  }

  /** `operator!=(nullptr)`: the same as `operator bool`. */
  function NotEqualsNull(w: FunctionWrapper): (b: bool)
    ensures b <==> w != Null
  {
    IsBound(w)
  }

  /**
   `operator()(args...)`: throws "empty object" without calling anything when
   the pointer is null, and otherwise returns what the held node's callable
   returns for the argument.
   */
  function Invoke<A, R>(s: State<A, R>, i: nat, x: A): (r: Result<R, Error>)
    requires Valid(s) && i < |s.vars|
    ensures r.Failure? <==> s.vars[i] == Null
    ensures r.Failure? ==> r.error == EmptyObject
    ensures r.Success? ==> Target(s, i).Some? && r.value == Target(s, i).value.call(x)
  {
    match s.vars[i].ptr
    case None => Failure(EmptyObject)
    case Some(a) => Success(s.store[a].call(x))
  }

  /** `FunctionWrapper()` and `FunctionWrapper(nullptr)`: a new, empty wrapper. */
  function ConstructEmpty<A, R>(s: State<A, R>): (t: State<A, R>)
    ensures Appended(s, t) && NoAllocation(s, t)
    ensures !IsBound(t.vars[|s.vars|]) && EqualsNull(t.vars[|s.vars|]) && !NotEqualsNull(t.vars[|s.vars|])
    ensures Valid(s) ==> Valid(t)
  {
    s.(vars := s.vars + [Null])
  }

  /** `FunctionWrapper(f)`: a new wrapper pointing at a freshly allocated node holding `f`. */
  function ConstructFrom<A, R>(s: State<A, R>, f: A -> R): (t: State<A, R>)
    requires Valid(s)
    ensures Appended(s, t) && HoldsFresh(s, t, |s.vars|, Node(f))
    ensures Valid(t)
  {
    var (s', a) := Alloc(s, Node(f));
    s'.(vars := s'.vars + [FunctionWrapper(Some(a))])
  }

  /**
   `FunctionWrapper(FunctionWrapper&&)`: the new wrapper takes over the very
   node `other` held (or null), nothing is allocated, and `other` is left empty.
   */
  function MoveConstruct<A, R>(s: State<A, R>, i: nat): (t: State<A, R>)
    requires i < |s.vars|
    ensures NoAllocation(s, t) && |t.vars| == |s.vars| + 1
    ensures forall j :: 0 <= j < |s.vars| && j != i ==> t.vars[j] == s.vars[j]
    ensures t.vars[|s.vars|] == s.vars[i] && t.vars[i] == Null
    ensures Valid(s) ==> Valid(t)
  {
    s.(vars := s.vars[i := Null] + [s.vars[i]])
  }

  /**
   `operator=(FunctionWrapper&&)`: wrapper `dst` drops its previous node and
   takes over the very node `src` held; nothing is allocated, and `src` is left
   empty unless it is `dst` itself. A self-move keeps the pointer: `unique_ptr`'s
   move assignment is `reset(u.release())`, and `shared_ptr`'s moves into a
   temporary that it swaps in.
   */
  function MoveAssign<A, R>(s: State<A, R>, dst: nat, src: nat): (t: State<A, R>)
    requires dst < |s.vars| && src < |s.vars|
    ensures NoAllocation(s, t) && |t.vars| == |s.vars|
    ensures t.vars[dst] == s.vars[src]
    ensures dst != src ==> t.vars[src] == Null
    ensures forall j :: 0 <= j < |s.vars| && j != dst && j != src ==> t.vars[j] == s.vars[j]
    ensures Valid(s) ==> Valid(t)
  {
    s.(vars := s.vars[src := Null][dst := s.vars[src]])
  }

  /** `operator=(nullptr)`: wrapper `i` becomes empty and nothing else changes. */
  function AssignNull<A, R>(s: State<A, R>, i: nat): (t: State<A, R>)
    requires i < |s.vars|
    ensures OnlyChanged(s, t, i) && NoAllocation(s, t)
    ensures t.vars[i] == Null
    ensures Valid(s) ==> Valid(t)
  {
    s.(vars := s.vars[i := Null])
  }

  /**
   `operator=(FunctionType&& f)`: wrapper `i` points at a freshly allocated node
   holding `f`, whatever it held before; nothing else changes.
   */
  function AssignCallable<A, R>(s: State<A, R>, i: nat, f: A -> R): (t: State<A, R>)
    requires Valid(s) && i < |s.vars|
    ensures OnlyChanged(s, t, i) && HoldsFresh(s, t, i, Node(f))
    ensures Valid(t)
  {
    var (s', a) := Alloc(s, Node(f));
    s'.(vars := s'.vars[i := FunctionWrapper(Some(a))])
  }

  // ---------------------------------------------------------------------------
  // Properties

  /** `w == nullptr` and `w != nullptr` disagree, and `w != nullptr` is `bool(w)`. */
  lemma NullComparisons(w: FunctionWrapper)
    ensures EqualsNull(w) == !NotEqualsNull(w)
    ensures NotEqualsNull(w) == IsBound(w)
  {
  }

  /** A wrapper converts to `true` exactly when invoking it does not throw. */
  lemma BoundIffInvokeSucceeds<A, R>(s: State<A, R>, i: nat, x: A)
    requires Valid(s) && i < |s.vars|
    ensures IsBound(s.vars[i]) <==> Invoke(s, i, x).Success?
  {
  }

  /** A wrapper constructed from `f` calls `f`: `FunctionWrapper(f)(x) == f(x)`. */
  lemma InvokeConstructed<A, R>(s: State<A, R>, f: A -> R, x: A)
    requires Valid(s)
    ensures Invoke(ConstructFrom(s, f), |s.vars|, x) == Success(f(x))
  {
  }

  /** After `w = f`, whatever `w` held before, `w(x) == f(x)`. */
  lemma InvokeAssigned<A, R>(s: State<A, R>, i: nat, f: A -> R, x: A)
    requires Valid(s) && i < |s.vars|
    ensures Invoke(AssignCallable(s, i, f), i, x) == Success(f(x))
  {
  }

  /**
   A default- or `nullptr`-constructed wrapper throws "empty object" when
   invoked, the first wrapper of a program included.
   */
  lemma InvokeEmptyThrows<A, R>(s: State<A, R>, x: A)
    requires Valid(s)
    ensures Invoke(ConstructEmpty(s), |s.vars|, x) == Failure(EmptyObject)
  {
  }

  /** After `w = nullptr`, and after moving out of `w`, invoking `w` throws "empty object". */
  lemma InvokeResetThrows<A, R>(s: State<A, R>, i: nat, x: A)
    requires Valid(s) && i < |s.vars|
    ensures Invoke(AssignNull(s, i), i, x) == Failure(EmptyObject)
    ensures Invoke(MoveConstruct(s, i), i, x) == Failure(EmptyObject)
  {
  }

  /**
   After `w = std::move(v)` with `v` a different wrapper, invoking `v` throws
   "empty object".
   */
  lemma InvokeMoveAssignedFromThrows<A, R>(s: State<A, R>, dst: nat, src: nat, x: A)
    requires Valid(s) && dst < |s.vars| && src < |s.vars| && dst != src
    ensures Invoke(MoveAssign(s, dst, src), src, x) == Failure(EmptyObject)
  {
  }

  /** The move target behaves as the source did before the move. */
  lemma MoveBehavesAlike<A, R>(s: State<A, R>, dst: nat, src: nat, x: A)
    requires Valid(s) && dst < |s.vars| && src < |s.vars|
    ensures Invoke(MoveConstruct(s, src), |s.vars|, x) == Invoke(s, src, x)
    ensures Invoke(MoveAssign(s, dst, src), dst, x) == Invoke(s, src, x)
  {
  }
}
