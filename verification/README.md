# FunctionWrapper: a type-erased callable holder, modelled in Dafny

The repository defines `FunctionWrapper<R(Args...)>`, a value type that holds
any callable with a fixed call signature and calls it through one uniform
`operator()`. The wrapper holds either nothing or a pointer to a heap node
(`ConcreteFunction<F>`, derived from `FunctionBase`) that owns the callable.
There are two variants of the header:

- `Function/inc/function.h` owns the node through `std::unique_ptr`. Copying
  clones the node (`FunctionBase::clone`), so every copy is independent. Moving
  transfers the pointer. Copying from an empty wrapper dereferences a null
  pointer.
- `function/inc/function.h` holds the node through `std::shared_ptr`. Copying
  makes the copy point at the same node, and copying an empty wrapper is fine.
  Moving transfers the pointer.

## How the model is built

- `Objects` (objects.dfy) is the data model shared by both variants:
  - a node `Node(call: A -> R)`;
  - a wrapper `FunctionWrapper(ptr: Option<Addr>)`;
  - a program `State` holding a store of allocated nodes, a bump allocator and
    the program's wrapper objects, in construction order.
- Object identity is explicit. A node is "fresh" when its address was not in
  the store before the operation. Two wrappers alias when they hold the same
  address. A wrapper is "unchanged" when its slot in the state is equal.
- Constructors append a wrapper to the state. Assignments and moves update
  wrappers by index, so self-assignment (`dst == src`) can be stated directly.
- `Core` (core.dfy) holds the operations both headers implement alike: the
  constructors other than copying, moves, `= nullptr`, `= f`, the null tests and
  invocation. Each is one function.
- `UniqueFunction` (unique_function.dfy) models the owning header's copy
  operations. `SharedFunction` (shared_function.dfy) models the sharing
  header's. Each variant module also has:
  - a `Step` that interprets one program operation (`Objects.Op`);
  - a `Run` that interprets a whole program.
  In the owning variant, `Step` is undefined (`None`) exactly when the operation
  names a missing wrapper or copies from an empty one.
- `Agreement` (agreement.dfy) relates the two variants. On every program the
  owning variant runs, every wrapper gives the same call results in both
  variants. With immutable callables, as modelled here, they differ only in
  node identity.
- `Scenarios` (scenarios.dfy) replays concrete cases from
  `Function/test/test.cpp`.
- `Wrappers` (wrappers.dfy) holds `Option` and `Result`. `Invoke` returns
  `Failure(EmptyObject)`, standing for `std::runtime_error("empty object")`.

The callables are Dafny functions `A -> R`: one argument type and one result
type stand in for `Args...` and `ReturnType`.

## Model

| member | source | states |
|---|---|---|
| `Objects.Alloc` | Function/inc/function.h:38-41 | `make_unique`/`make_shared` stores the node at an address no node in the store holds (nothing is freed, so in particular no live node holds it), keeps every existing node and wrapper, and keeps the state valid |
| `Core.IsBound` | Function/inc/function.h:72-75 | `bool(w)` is true exactly when the wrapper is not the null wrapper; function/inc/function.h:78-81 does the same |
| `Core.EqualsNull` | Function/inc/function.h:77-80 | `w == nullptr` holds exactly when the wrapper is the null wrapper; function/inc/function.h:83-86 does the same |
| `Core.NotEqualsNull` | Function/inc/function.h:82-85 | `w != nullptr` holds exactly when the wrapper is not the null wrapper; function/inc/function.h:88-91 does the same |
| `Core.Invoke` | Function/inc/function.h:87-93 | invocation fails with "empty object" exactly when the pointer is null; otherwise it returns the reached node's callable applied to the argument; function/inc/function.h:94-100 does the same |
| `Core.ConstructEmpty` | Function/inc/function.h:20-26 | default and `nullptr` construction add one wrapper that is false, `== nullptr` and not `!= nullptr`; nothing is allocated and no existing wrapper changes; function/inc/function.h:20-26 does the same |
| `Core.ConstructFrom` | Function/inc/function.h:38-41 | construction from `f` adds one wrapper pointing at a fresh node holding `f`; this node is the only addition to the store; function/inc/function.h:40-43 does the same |
| `UniqueFunction.Clone` | Function/inc/function.h:113-116 | `clone()` yields a node at a new address, distinct from the original, holding the original's callable; the wrappers are untouched |
| `UniqueFunction.CopyConstruct` | Function/inc/function.h:28-34 | requires a non-empty source; the new wrapper owns a fresh node equal to the source's, differs from the source, and every existing wrapper is unchanged |
| `UniqueFunction.CopyAssign` | Function/inc/function.h:50-60 | requires a non-empty `rhs`; the target owns a fresh clone of `rhs`'s node, and every other wrapper, `rhs` included, is unchanged |
| `Core.MoveConstruct` | Function/inc/function.h:36 | the new wrapper holds the very pointer the source held; nothing is allocated; the source becomes null; other wrappers are unchanged; function/inc/function.h:36-38 does the same |
| `Core.MoveAssign` | Function/inc/function.h:62 | the target holds the very pointer the source held; nothing is allocated; the source becomes null unless it is the target; other wrappers are unchanged; function/inc/function.h:64-68 does the same |
| `Core.AssignNull` | Function/inc/function.h:44-48 | the wrapper becomes null; nothing else changes and nothing is allocated; function/inc/function.h:46-50 does the same |
| `Core.AssignCallable` | Function/inc/function.h:64-69 | whatever it held before, the wrapper points at a fresh node holding `f`; no other wrapper changes; function/inc/function.h:70-75 does the same |
| `UniqueFunction.Step` | Function/inc/function.h:28-60 | an operation is defined exactly when its wrappers exist and, for copies, the source pointer is non-null; defined steps keep the state valid |
| `UniqueFunction.Run` | Function/inc/function.h:19-69 | a program that completes leaves a valid state that has at least as many wrappers as before |
| `Core.NullComparisons` | Function/inc/function.h:77-85 | `== nullptr` is the negation of `!= nullptr`, and `!= nullptr` equals `bool(w)`, in every state; function/inc/function.h:83-91 does the same |
| `Core.BoundIffInvokeSucceeds` | Function/inc/function.h:72-93 | `bool(w)` is true exactly when invoking `w` does not throw; function/inc/function.h:78-100 does the same |
| `Core.InvokeConstructed` | Function/test/test.cpp:37-54 | a wrapper constructed from `f` returns `f(x)` for every `x`; function/inc/function.h:120-123 does the same |
| `Core.InvokeAssigned` | Function/test/test.cpp:120-136 | after `w = f`, whatever `w` held, `w(x) == f(x)`; function/inc/function.h:70-75 does the same |
| `Core.InvokeEmptyThrows` | Function/inc/function.h:87-90 | a default- or `nullptr`-constructed wrapper, the first of a program included, throws "empty object"; function/inc/function.h:94-97 does the same |
| `Core.InvokeResetThrows` | Function/inc/function.h:44-48 | after `w = nullptr`, and after move-constructing from `w`, invoking `w` throws "empty object"; function/inc/function.h:46-50 does the same |
| `Core.InvokeMoveAssignedFromThrows` | Function/test/test.cpp:153-161 | after `w = std::move(v)` with `v` a different wrapper, invoking `v` throws "empty object"; function/inc/function.h:64-68 does the same |
| `UniqueFunction.CopyBehavesAlike` | Function/test/test.cpp:56-82 | a copy and its source return the same result for every argument |
| `UniqueFunction.CopyAssignBehavesAlike` | Function/inc/function.h:50-60 | after `w = other`, `w` behaves as `other` did and `other` still does; for `w = w` the behaviour is kept |
| `Core.MoveBehavesAlike` | Function/test/test.cpp:84-91 | the target of a move construction or move assignment returns what the source returned before; function/inc/function.h:64-68 does the same |
| `UniqueFunction.StepKeepsOthers` | Function/inc/function.h:28-69 | copies are independent: an operation that does not name wrapper `k` leaves the node `k` reaches unchanged |
| `UniqueFunction.StepKeepsExclusive` | Function/inc/function.h:127 | every defined operation keeps ownership exclusive: no two wrappers hold the same node |
| `UniqueFunction.RunKeepsExclusive` | Function/inc/function.h:127 | exclusive ownership holds after every program that runs to the end |
| `SharedFunction.CopyConstruct` | function/inc/function.h:28-34 | with no precondition on the source, the new wrapper holds the very pointer the source holds (null included); nothing is allocated and existing wrappers are unchanged |
| `SharedFunction.CopyAssign` | function/inc/function.h:52-62 | the target holds the very pointer the source holds (null included); the source and all other wrappers are unchanged; nothing is allocated |
| `SharedFunction.Step` | function/inc/function.h:28-75 | an operation is defined exactly when its wrappers exist (copying an empty wrapper is allowed); defined steps keep the state valid |
| `SharedFunction.Run` | function/inc/function.h:19-75 | a program that completes leaves a valid state that has at least as many wrappers as before |
| `SharedFunction.CopyBehavesAlike` | function/inc/function.h:52-62 | a copy (constructed or assigned) returns what its source returns, the "empty object" error included |
| `SharedFunction.StepKeepsOthers` | function/inc/function.h:46-75 | an operation that does not name wrapper `k` leaves the node `k` reaches unchanged |
| `SharedFunction.CopySharesNode` | function/inc/function.h:129 | copying a bound wrapper leaves two wrappers on one node, so exclusive ownership does not hold in this variant |
| `SharedFunction.CopyOfEmptyIsEmpty` | function/inc/function.h:28-34 | copying an empty wrapper, by construction or by assignment, is defined and gives a wrapper that throws "empty object" |
| `Agreement.InvokeAgrees` | Function/inc/function.h:87-93 | states whose wrappers reach the same callables return the same result for every call in both variants |
| `Agreement.CopyDiffersInIdentityOnly` | Function/inc/function.h:28-30 | an owning copy holds a different pointer from its source and a sharing copy holds the same one, yet both reach the same callable |
| `Agreement.CopyFromEmptyDiffers` | Function/inc/function.h:29 | copying an empty wrapper is undefined in the owning variant and yields an empty wrapper in the sharing variant |
| `Agreement.StepAgrees` | function/inc/function.h:28-75 | every operation the owning variant can perform, the sharing variant can perform too, and indistinguishable states stay indistinguishable |
| `Agreement.RunAgrees` | function/inc/function.h:19-75 | every program the owning variant completes, the sharing variant completes too, with indistinguishable final states |
| `Agreement.ProgramsAgree` | function/inc/function.h:129 | from the empty state, after any program the owning variant completes, each wrapper gives the same call results in both variants |
| `Scenarios.Identity` | Function/test/test.cpp:7-10 | `identical_return` returns its argument unchanged |
| `Scenarios.Double` | Function/test/test.cpp:45 | the doubling lambda's result is even, and halving it with `DivisionBy2` gives back the argument; Dafny's `int` is unbounded, while C++ `2 * m` overflows `int` for large `m` (not at 777) |
| `Scenarios.HalveTruncating` | Function/test/test.cpp:17-20 | `dividend / 2` truncates toward zero: the remainder is 0 or 1 for a non-negative dividend, and 0 or -1 for a negative one |
| `Scenarios.CallbackQueue` | Function/test/test.cpp:188-202 | three wrappers built from a function, a functor and a lambda return 777, 388 and 1554 for 777 |
| `Scenarios.MoveOutOfWrapper` | Function/test/test.cpp:84-91 | after a move, the source `== nullptr` and throws, and the target returns 777 for 777 |
| `Scenarios.AssignWrapperToWrapper` | Function/test/test.cpp:138-150 | after `func1 = func2`, both return 388 for 777, through different nodes |

## Left out

- Deallocation, destructors and reference counting: the store only grows. A node a wrapper no longer reaches stays in the store, and nothing reads it again. Ownership is modelled as node identity, freshness and emptiness.
- Inline (small-buffer) storage: neither header has it. Both always put the node on the heap, so the model has no inline/heap mode. The model also follows the code on two points where a value-semantic design would differ. The sharing header's copies alias one node instead of copying it. The owning header dereferences null when copying an empty wrapper.
- Exceptions thrown by the user's callable, and `std::bad_alloc`: callables are total Dafny functions and allocation always succeeds. For this reason the copy-then-swap in `operator=` (Function/inc/function.h:52) is modelled only by its final state.
- Variadic `Args...` and `ReturnType`: they are modelled as a single argument type `A` and result type `R`. The `void(void)` test with a global side effect and the `double(int, double, char)` test are not modelled.
- Overload resolution: the non-const `FunctionWrapper&` copy constructor and copy assignment exist only to beat the forwarding template. They are modelled together with their `const` twins.
- Forwarding-reference deduction: an lvalue functor makes `FunctionType` a reference (Function/inc/function.h:38-41, :124), so `ConcreteFunction` stores only a reference to the caller's functor. Callables are modelled as immutable values held by the node, so referent lifetime and mutation through the reference are not modelled. This matters for the tests at Function/test/test.cpp:169-175 and :191-200. They call through a reference to a `DivisionBy2` that has already been destroyed, which is undefined behaviour in C++. `Scenarios.CallbackQueue` replays the second of these as if the functor were held by value.
- `Core.BoundIffInvokeSucceeds`: holds for the callables modelled here. A wrapper built from a null function pointer is bound (non-null node pointer), yet calling it dereferences null. The model has no null callables, so it does not express this case.
- `Agreement`: the variants agree on every call only because callables carry no mutable state and calls are not program steps. A by-value functor with a `mutable` member is allowed by the const `ConcreteFunction::operator()` (Function/inc/function.h:118-121). For such a functor, a call through one sharing copy changes what the other copy returns (function/inc/function.h:33 aliases), while an owning clone (Function/inc/function.h:29, :115) is unaffected.
- `Scenarios.Double`: does not model 32-bit `int` overflow of `2 * m`, because the scenarios only use 777.
- Calls the model does not check: three cases call through a null or dangling pointer without a check. The first is copying an empty wrapper in the owning variant. It is excluded by `requires` on the copy functions and makes `UniqueFunction.Step` return `None`. The second is calling a wrapper built from a null function pointer. The third is calling through a stored reference to a destroyed functor. The last two are outside the model, as described in the lines on forwarding-reference deduction and `Core.BoundIffInvokeSucceeds` above.
