/** `ConsoleDispatcher`: a stack of console executors. A command goes to the
    executors from the top down until one of them accepts it. */
module ConsoleDispatchers {
  import opened Wrappers

  /** An executor, by identity (`List.Remove` compares executors by
      reference). */
  type Executor = nat

  /** The position of the first occurrence of `x`. */
  function IndexOf(s: seq<Executor>, x: Executor): (i: nat)
    requires x in s
    ensures i < |s| && s[i] == x && x !in s[..i]
  {
    if s[0] == x then 0
    else
      var j := IndexOf(s[1..], x);
      assert s[..j + 1] == [s[0]] + s[1..][..j];
      j + 1
  }

  /** `List.Remove(x)`: the list without the first occurrence of `x`. */
  function RemoveFirst(s: seq<Executor>, x: Executor): (r: seq<Executor>)
    ensures x !in s ==> r == s
    ensures x in s ==> exists i :: 0 <= i < |s| && s[i] == x && x !in s[..i] && r == s[..i] + s[i + 1..]
  {
    if x in s then
      var i := IndexOf(s, x);
      s[..i] + s[i + 1..]
    else s
  }

  /** Removing takes away exactly one copy of the executor. */
  lemma RemoveFirstMultiset(s: seq<Executor>, x: Executor)
    requires x in s
    ensures multiset(RemoveFirst(s, x)) + multiset{x} == multiset(s)
  {
    var i := IndexOf(s, x);
    assert RemoveFirst(s, x) == s[..i] + s[i + 1..];
    assert s == s[..i] + [x] + s[i + 1..];
    calc {
      multiset(s);
      multiset(s[..i] + [x] + s[i + 1..]);
      multiset(s[..i]) + multiset{x} + multiset(s[i + 1..]);
      multiset(s[..i] + s[i + 1..]) + multiset{x};
    }
  }

  /** The executors `RunDispatchers` calls, in calling order: from the top of
      `stack` down to and including the first that accepts. */
  function Dispatch(stack: seq<Executor>, accepts: Executor -> bool): (called: seq<Executor>)
    ensures |called| <= |stack|
  {
    if stack == [] then []
    else
      var top := stack[|stack| - 1];
      if accepts(top) then [top] else [top] + Dispatch(stack[..|stack| - 1], accepts)
  }

  /** The called executors are the top of the stack in top-down order; every
      one of them but the last rejects; the last accepts unless the whole
      stack was called. */
  lemma {:induction false} DispatchStopsAtFirstAccept(stack: seq<Executor>, accepts: Executor -> bool)
    ensures var called := Dispatch(stack, accepts);
            && (forall i :: 0 <= i < |called| ==> called[i] == stack[|stack| - 1 - i])
            && (forall i :: 0 <= i < |called| - 1 ==> !accepts(called[i]))
            && (|called| < |stack| ==> |called| > 0 && accepts(called[|called| - 1]))
  {
    if stack != [] {
      DispatchStopsAtFirstAccept(stack[..|stack| - 1], accepts);
    }
  }

  /** When no executor accepts, every one is called once, top first. */
  lemma {:induction false} DispatchWithoutAccept(stack: seq<Executor>, accepts: Executor -> bool)
    requires forall i :: 0 <= i < |stack| ==> !accepts(stack[i])
    ensures |Dispatch(stack, accepts)| == |stack|
  {
    if stack != [] {
      DispatchWithoutAccept(stack[..|stack| - 1], accepts);
    }
  }

  /** An executor that accepts hides everything below it. */
  lemma {:induction false} DispatchAboveAccept(lower: seq<Executor>, upper: seq<Executor>, x: Executor, accepts: Executor -> bool)
    requires accepts(x)
    ensures Dispatch(lower + [x] + upper, accepts) == Dispatch([x] + upper, accepts)
  {
    if upper != [] {
      var u := upper[..|upper| - 1];
      assert (lower + [x] + upper)[..|lower + [x] + upper| - 1] == lower + [x] + u;
      assert ([x] + upper)[..|[x] + upper| - 1] == [x] + u;
      DispatchAboveAccept(lower, u, x, accepts);
    } else {
      assert lower + [x] + upper == lower + [x];
    }
  }

  class ConsoleDispatcher {
    var Dispatchers: seq<Executor>

    constructor ()
      ensures Dispatchers == []
    {
      Dispatchers := [];
    }

    method PushDispatcher(toAdd: Executor)
      modifies this
      ensures Dispatchers == old(Dispatchers) + [toAdd]
    {
      Dispatchers := Dispatchers + [toAdd];
    }

    /** Removes and returns the top executor; `None` (null) on an empty
        stack. */
    method PopDispatcher() returns (removed: Option<Executor>)
      modifies this
      ensures old(Dispatchers) == [] ==> removed == None && Dispatchers == []
      ensures old(Dispatchers) != [] ==> removed == Some(old(Dispatchers)[|old(Dispatchers)| - 1]) && Dispatchers == old(Dispatchers)[..|old(Dispatchers)| - 1]
    {
      removed := None;
      if |Dispatchers| > 0 {
        var lastItem := |Dispatchers| - 1;
        removed := Some(Dispatchers[lastItem]);
        Dispatchers := Dispatchers[..lastItem];
      }
    }

    method RemoveDispatcher(toRemove: Executor) returns (found: bool)
      modifies this
      ensures found <==> toRemove in old(Dispatchers)
      ensures Dispatchers == RemoveFirst(old(Dispatchers), toRemove)
    {
      found := toRemove in Dispatchers;
      Dispatchers := RemoveFirst(Dispatchers, toRemove);
    }

    /** `RunDispatchers(command)`: `accepts` is each executor's answer to the
        command; `called` lists the executors that received it, in order. */
    method RunDispatchers(accepts: Executor -> bool) returns (called: seq<Executor>)
      ensures called == Dispatch(Dispatchers, accepts)
    {
      called := [];
      var completed := false;
      var i := |Dispatchers| - 1;
      assert Dispatchers[..i + 1] == Dispatchers;
      while i >= 0 && !completed
        invariant -1 <= i < |Dispatchers|
        invariant Dispatch(Dispatchers, accepts) == called + (if completed then [] else Dispatch(Dispatchers[..i + 1], accepts))
        decreases i + 1
      {
        assert Dispatchers[..i + 1][..i] == Dispatchers[..i];
        called := called + [Dispatchers[i]];
        completed := accepts(Dispatchers[i]);
        i := i - 1;
      }
      if !completed {
        assert Dispatchers[..i + 1] == [];
      }
    }
  }

  /** The scenario of the dispatcher's own unit test: `a` and `c` accept,
      `b` passes commands through. Pushing `a` sends commands to `a` alone;
      pushing `b` on top sends them to `b` and then `a`; after removing `a`
      only `b` receives them; and after pushing `c`, `c` takes them and `b`
      no longer does. */
  method DispatcherScenario(a: Executor, b: Executor, c: Executor, dummy: Executor, accepts: Executor -> bool)
    returns (first: seq<Executor>, third: seq<Executor>, fourth: seq<Executor>, fifth: seq<Executor>, removedDummy: bool)
    requires a != b && b != c && a != c
    requires accepts(a) && !accepts(b) && accepts(c)
    ensures removedDummy
    ensures first == [a] && third == [b, a] && fourth == [b] && fifth == [c]
  {
    var console := new ConsoleDispatcher();
    console.PushDispatcher(dummy);
    removedDummy := console.RemoveDispatcher(dummy);
    console.PushDispatcher(a);
    first := console.RunDispatchers(accepts);
    console.PushDispatcher(b);
    third := console.RunDispatchers(accepts);
    var _ := console.RemoveDispatcher(a);
    fourth := console.RunDispatchers(accepts);
    console.PushDispatcher(c);
    fifth := console.RunDispatchers(accepts);
  }
}
