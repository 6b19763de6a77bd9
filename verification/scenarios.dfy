/**
 The concrete scenarios of Function/test/test.cpp, replayed on the owning
 variant with `int -> int` callables: a free function returning its argument,
 a functor halving it with C++'s truncating division, and a lambda doubling it.
 */
module Scenarios {
  import opened Wrappers
  import opened Objects
  import opened Core
  import opened UniqueFunction

  /** `identical_return`: hands its argument back unchanged. */
  function Identity(x: int): (r: int)
    ensures r == x
  {
    x
  }

  /** `DivisionBy2::operator()`: C++ `/` on `int` truncates toward zero. */
  function HalveTruncating(x: int): (r: int)
    ensures x >= 0 ==> 0 <= x - 2 * r <= 1
    ensures x < 0 ==> -1 <= x - 2 * r <= 0
  {
    if x >= 0 then x / 2 else -((-x) / 2)
  }

  /**
   The capturing lambda `[=](int m) { return 2 * m; }`, on unbounded integers:
   the functor's halving undoes it, and its result is always even.
   */
  function Double(x: int): (r: int)
    ensures HalveTruncating(r) == x && r % 2 == 0
  {
    2 * x
  }

  /** The callback vector: three wrappers of different origin, each calling its own callable. */
  lemma CallbackQueue()
    ensures var s := ConstructFrom(ConstructFrom(ConstructFrom(Initial<int, int>(), Identity), HalveTruncating), Double);
      && Invoke(s, 0, 777) == Success(777)
      && Invoke(s, 1, 777) == Success(388)
      && Invoke(s, 2, 777) == Success(1554)
  {
  }

  /** Moving out of a wrapper: the source compares equal to `nullptr`, the target calls the function. */
  lemma MoveOutOfWrapper()
    ensures var s := MoveConstruct(ConstructFrom(Initial<int, int>(), Identity), 0);
      && EqualsNull(s.vars[0])
      && Invoke(s, 1, 777) == Success(777)
      && Invoke(s, 0, 777) == Failure(EmptyObject)
  {
    InitialValid<int, int>();
  }

  /** `func1 = func2` with `func2` a functor: both then halve, by nodes of their own. */
  lemma AssignWrapperToWrapper()
    ensures var s := ConstructFrom(ConstructFrom(Initial<int, int>(), Identity), HalveTruncating);
      && Invoke(CopyAssign(s, 0, 1), 0, 777) == Success(388)
      && Invoke(CopyAssign(s, 0, 1), 1, 777) == Success(388)
      && CopyAssign(s, 0, 1).vars[0] != CopyAssign(s, 0, 1).vars[1]
  {
    InitialValid<int, int>();
    var s := ConstructFrom(ConstructFrom(Initial<int, int>(), Identity), HalveTruncating);
    CopyAssignBehavesAlike(s, 0, 1, 777);
  }
}
