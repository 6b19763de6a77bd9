/**
 How the two variants relate. They differ in object identity: the owning
 variant clones where the sharing one aliases. The callables of this model are
 immutable values and calling one is not a program step that changes state, so
 no call can tell the variants apart: on every program the owning variant runs
 without copying from an empty wrapper, the sharing variant runs too, and every
 wrapper returns the same result for every argument in both. A callable with
 `mutable` state would break this, since calls would then update a node that
 the sharing variant's copies have in common.
 */
module Agreement {
  import opened Wrappers
  import opened Objects
  import opened Core
  import Unique = UniqueFunction
  import Shared = SharedFunction

  /**
   The two states have the same wrappers, and each reaches a node with the same
   callable in both (or is empty in both), wherever the nodes are stored.
   */
  ghost predicate Indistinguishable<A, R>(u: State<A, R>, s: State<A, R>) {
    && Valid(u) && Valid(s)
    && |u.vars| == |s.vars|
    && forall i :: 0 <= i < |u.vars| ==> Target(u, i) == Target(s, i)
  }

  /** Indistinguishable states answer every call through every wrapper alike. */
  lemma InvokeAgrees<A, R>(u: State<A, R>, s: State<A, R>, i: nat, x: A)
    requires Indistinguishable(u, s) && i < |u.vars|
    ensures Invoke(u, i, x) == Invoke(s, i, x)
  {
  }

  /**
   A clone and an alias differ in identity only: the owning copy holds a new
   node, the sharing copy holds the source's own node, and both reach the
   source's callable.
   */
  lemma CopyDiffersInIdentityOnly<A, R>(st: State<A, R>, i: nat)
    requires Valid(st) && i < |st.vars| && st.vars[i].ptr.Some?
    ensures Unique.CopyConstruct(st, i).vars[|st.vars|] != st.vars[i]
    ensures Shared.CopyConstruct(st, i).vars[|st.vars|] == st.vars[i]
    ensures Target(Unique.CopyConstruct(st, i), |st.vars|) == Target(Shared.CopyConstruct(st, i), |st.vars|)
  {
  }

  /**
   Copying from an empty wrapper is undefined in the owning variant (it
   dereferences null) and yields an empty wrapper in the sharing one.
   */
  lemma CopyFromEmptyDiffers<A, R>(st: State<A, R>, dst: nat, src: nat)
    requires Valid(st) && dst < |st.vars| && src < |st.vars| && st.vars[src] == Null
    ensures Unique.Step(st, NewCopy(src)) == None && Unique.Step(st, SetCopy(dst, src)) == None
    ensures Shared.Step(st, NewCopy(src)).Some? && Shared.Step(st, NewCopy(src)).value.vars[|st.vars|] == Null
    ensures Shared.Step(st, SetCopy(dst, src)).Some? && Shared.Step(st, SetCopy(dst, src)).value.vars[dst] == Null
  {
  }

  /** One operation the owning variant can perform keeps the two states indistinguishable. */
  lemma StepAgrees<A, R>(u: State<A, R>, s: State<A, R>, op: Op<A, R>)
    requires Indistinguishable(u, s) && Unique.Defined(u, op)
    ensures Shared.Step(s, op).Some?
    ensures Indistinguishable(Unique.Step(u, op).value, Shared.Step(s, op).value)
  {
    var u', s' := Unique.Step(u, op).value, Shared.Step(s, op).value;
    forall k | 0 <= k < |u'.vars|
      ensures Target(u', k) == Target(s', k)
    {
      if k < |u.vars| && !Touches(op, k) {
        Unique.StepKeepsOthers(u, op, k);
        Shared.StepKeepsOthers(s, op, k);
        assert Target(u, k) == Target(s, k);
      } else {
        match op
        case NewCopy(i) => assert Target(u, i) == Target(s, i);
        case NewMove(i) => assert Target(u, i) == Target(s, i);
        case SetCopy(_, j) => assert Target(u, j) == Target(s, j);
        case SetMove(_, j) => assert Target(u, j) == Target(s, j);
        case _ =>
      }
    }
  }

  /**
   Every program the owning variant runs to the end, the sharing variant runs to
   the end too, and the two final states are indistinguishable.
   */
  lemma {:induction false} RunAgrees<A, R>(u: State<A, R>, s: State<A, R>, ops: seq<Op<A, R>>)
    requires Indistinguishable(u, s) && Unique.Run(u, ops).Some?
    ensures Shared.Run(s, ops).Some?
    ensures Indistinguishable(Unique.Run(u, ops).value, Shared.Run(s, ops).value)
    decreases |ops|
  {
    if ops != [] {
      StepAgrees(u, s, ops[0]);
      RunAgrees(Unique.Step(u, ops[0]).value, Shared.Step(s, ops[0]).value, ops[1..]);
    }
  }

  /**
   From an empty program state, every program the owning variant runs leaves
   every wrapper returning, for every argument, what the same wrapper returns in
   the sharing variant.
   */
  lemma ProgramsAgree<A, R>(ops: seq<Op<A, R>>, i: nat, x: A)
    requires Unique.Run(Initial(), ops).Some?
    requires i < |Unique.Run(Initial(), ops).value.vars|
    ensures Shared.Run(Initial(), ops).Some?
    ensures |Shared.Run(Initial(), ops).value.vars| == |Unique.Run(Initial(), ops).value.vars|
    ensures Invoke(Unique.Run(Initial(), ops).value, i, x) == Invoke(Shared.Run(Initial(), ops).value, i, x)
  {
    InitialValid<A, R>();
    RunAgrees(Initial<A, R>(), Initial<A, R>(), ops);
    InvokeAgrees(Unique.Run(Initial(), ops).value, Shared.Run(Initial(), ops).value, i, x);
  }
}
