/**
 The objects both variants of `FunctionWrapper<R(Args...)>` are built from: heap
 nodes that own one callable (`ConcreteFunction<F>`), the wrapper itself (one
 pointer that is null or points at a node), and the program state that lets
 contracts talk about object identity: a store of allocated nodes addressed by
 natural numbers, a bump allocator, and the wrapper objects of the program.

 A node is allocated by `Alloc` and never changes afterwards; "fresh" means "at
 an address the store did not hold before", and two wrappers alias exactly when
 they hold the same address.
 */
module Objects {
  import opened Wrappers

  type Addr = nat

  /** A heap object holding the user's callable (`ConcreteFunction<F>`). */
  datatype Node<!A, R> = Node(call: A -> R)

  /** The single data member of a wrapper: a null or non-null node pointer. */
  datatype FunctionWrapper = FunctionWrapper(ptr: Option<Addr>)

  /** The empty wrapper, whose pointer is null. */
  const Null: FunctionWrapper := FunctionWrapper(None)

  /**
   The program state: the allocated nodes, the next address the allocator hands
   out, and the wrapper objects that exist, numbered in order of construction.
   */
  datatype State<!A, R> = State(store: map<Addr, Node<A, R>>, next: Addr, vars: seq<FunctionWrapper>)

  /** The exception `operator()` throws; the model keeps its message. */
  datatype Error = RuntimeError(what: string)

  /** `std::runtime_error("empty object")`, thrown on invoking an empty wrapper. */
  const EmptyObject: Error := RuntimeError("empty object")

  /** A program before any wrapper has been constructed. */
  function Initial<A, R>(): State<A, R> {
    State(map[], 0, [])
  }

  /** Every allocated address lies below the allocator's next address. */
  ghost predicate AllocatorSound<A, R>(s: State<A, R>) {
    forall a :: a in s.store ==> a < s.next
  }

  /** No wrapper holds a dangling non-null pointer. */
  ghost predicate NoDangling<A, R>(s: State<A, R>) {
    forall i :: 0 <= i < |s.vars| && s.vars[i].ptr.Some? ==> s.vars[i].ptr.value in s.store
  }

  /** The well-formedness invariant every reachable state keeps. */
  ghost predicate Valid<A, R>(s: State<A, R>) {
    AllocatorSound(s) && NoDangling(s)
  }

  /**
   Exclusive ownership: no two distinct wrappers hold the same node. This is
   what owning the node through `std::unique_ptr` promises.
   */
  ghost predicate Exclusive<A, R>(s: State<A, R>) {
    forall i, j :: 0 <= i < j < |s.vars| && s.vars[i].ptr.Some? ==> s.vars[i].ptr != s.vars[j].ptr
  }

  /** The initial state is valid and trivially exclusive. */
  lemma InitialValid<A, R>()
    ensures Valid(Initial<A, R>()) && Exclusive(Initial<A, R>())
  {
  }

  /**
   `new Node(n)`: stores `n` at an address no node occupied before and leaves
   every wrapper and every existing node as it was.
   */
  function Alloc<A, R>(s: State<A, R>, n: Node<A, R>): (r: (State<A, R>, Addr))
    requires Valid(s)
    ensures r.1 !in s.store
    ensures r.0.store == s.store[r.1 := n]
    ensures r.0.vars == s.vars
    ensures Valid(r.0)
  {
    (State(s.store[s.next := n], s.next + 1, s.vars), s.next)
  }

  /**
   The node wrapper `i` reaches, or `None` when it is empty: everything about the
   wrapper that a call through it can observe.
   */
  ghost function Target<A, R>(s: State<A, R>, i: nat): Option<Node<A, R>>
    requires Valid(s) && i < |s.vars|
  {
    match s.vars[i].ptr
    case None => None
    case Some(a) => Some(s.store[a])
  }

  /** Operations of a program on its wrappers, addressed by construction order. */
  datatype Op<!A, R> =
    | NewEmpty                        // FunctionWrapper w; / FunctionWrapper w(nullptr);
    | NewFrom(f: A -> R)              // FunctionWrapper w(f);
    | NewCopy(src: nat)               // FunctionWrapper w(other);
    | NewMove(src: nat)               // FunctionWrapper w(std::move(other));
    | SetNull(dst: nat)               // w = nullptr;
    | SetCallable(dst: nat, f: A -> R) // w = f;
    | SetCopy(dst: nat, src: nat)     // w = other;
    | SetMove(dst: nat, src: nat)     // w = std::move(other);

  /** Every wrapper the operation names exists. */
  predicate InRange<A, R>(s: State<A, R>, op: Op<A, R>) {
    match op
    case NewEmpty => true
    case NewFrom(_) => true
    case NewCopy(i) => i < |s.vars|
    case NewMove(i) => i < |s.vars|
    case SetNull(i) => i < |s.vars|
    case SetCallable(i, _) => i < |s.vars|
    case SetCopy(i, j) => i < |s.vars| && j < |s.vars|
    case SetMove(i, j) => i < |s.vars| && j < |s.vars|
  }

  /** The existing wrapper an operation may change (a move also empties its source). */
  predicate Touches<A, R>(op: Op<A, R>, k: nat) {
    match op
    case NewEmpty => false
    case NewFrom(_) => false
    case NewCopy(_) => false
    case NewMove(i) => k == i
    case SetNull(i) => k == i
    case SetCallable(i, _) => k == i
    case SetCopy(i, _) => k == i
    case SetMove(i, j) => k == i || k == j
  }

  /** `t` adds one wrapper after those of `s` and keeps all of those as they were. */
  ghost predicate Appended<A, R>(s: State<A, R>, t: State<A, R>) {
    |t.vars| == |s.vars| + 1 && t.vars[..|s.vars|] == s.vars
  }

  /** `t` has the wrappers of `s`, all unchanged except possibly wrapper `k`. */
  ghost predicate OnlyChanged<A, R>(s: State<A, R>, t: State<A, R>, k: nat) {
    |t.vars| == |s.vars| && forall j :: 0 <= j < |s.vars| && j != k ==> t.vars[j] == s.vars[j]
  }

  /** Nothing was allocated: store and allocator are as they were. */
  ghost predicate NoAllocation<A, R>(s: State<A, R>, t: State<A, R>) {
    t.store == s.store && t.next == s.next
  }

  /**
   Wrapper `k` of `t` holds a node freshly allocated since `s`, holding `n`, and
   that node is the only addition to the store.
   */
  ghost predicate HoldsFresh<A, R>(s: State<A, R>, t: State<A, R>, k: nat, n: Node<A, R>) {
    && k < |t.vars|
    && t.vars[k].ptr.Some?
    && t.vars[k].ptr.value !in s.store
    && t.store == s.store[t.vars[k].ptr.value := n]
  }
}
