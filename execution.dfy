/**
 The reference semantics of the restore: a plan is the sequence of steps a
 fully successful run performs, and `Execute` runs a plan against an oracle
 of failing calls. Each step is either a single collaborator call or a
 reader that is acquired, used and then released by a `defer`. The run
 stops at the first call whose error is returned; a reader that was
 acquired is still released when its use fails.
 */
module Execution {
  import opened RestoreTypes

  /** One step of a plan; `context` holds the messages the step's error is wrapped in. */
  datatype Step =
    | Call(call: Event, context: seq<string>)
    | Scoped(acquire: Event, use: Event, release: Event, context: seq<string>)

  /** What a run leaves behind: the calls it made, in order, and the error it returned. */
  datatype Run = Run(events: seq<Event>, err: Option<Error>)

  function Prepend(events: seq<Event>, r: Run): Run {
    Run(events + r.events, r.err)
  }

  function Calls(s: Step): seq<Event> {
    match s
    case Call(e, _) => [e]
    case Scoped(a, u, rl, _) => [a, u, rl]
  }

  /** The calls of a plan when none of them fails. */
  function Flatten(plan: seq<Step>): seq<Event> {
    if plan == [] then [] else Calls(plan[0]) + Flatten(plan[1..])
  }

  /** Only a scoped reader's release is a call whose error is swallowed. */
  predicate WellFormedStep(s: Step) {
    match s
    case Call(e, _) => Fallible(e)
    case Scoped(a, u, rl, _) => Fallible(a) && Fallible(u) && !Fallible(rl)
  }

  predicate WellFormed(plan: seq<Step>) {
    forall i :: 0 <= i < |plan| ==> WellFormedStep(plan[i])
  }

  /** Runs `plan` whose first call is at trace position `pos`; a call at a position
      in `failing` returns an error. */
  function Execute(plan: seq<Step>, pos: nat, failing: set<nat>): Run
    decreases |plan|
  {
    if plan == [] then Run([], None)
    else
      match plan[0]
      case Call(e, ctx) =>
        if pos in failing then Run([e], Some(WrapAll(ctx, Cause(e))))
        else Prepend([e], Execute(plan[1..], pos + 1, failing))
      case Scoped(a, u, rl, ctx) =>
        if pos in failing then Run([a], Some(WrapAll(ctx, Cause(a))))
        else if pos + 1 in failing then Run([a, u, rl], Some(WrapAll(ctx, Cause(u))))
        else Prepend([a, u, rl], Execute(plan[1..], pos + 3, failing))
  }

  /** No call of `events` whose error would be returned fails. */
  predicate AllSucceed(events: seq<Event>, pos: nat, failing: set<nat>) {
    forall k :: 0 <= k < |events| && Fallible(events[k]) ==> pos + k !in failing
  }

  /** The index of the failed call in the events of a failed run: the last one,
      or the one before a reader's release. */
  function FailedAt(events: seq<Event>): nat
    requires events != []
  {
    if |events| >= 2 && !Fallible(events[|events| - 1]) then |events| - 2 else |events| - 1
  }

  /** The events end at the first call that failed, followed at most by the
      release of a reader whose use failed. */
  predicate StoppedAtFirstFailure(events: seq<Event>, pos: nat, failing: set<nat>) {
    events != [] &&
    var k := FailedAt(events);
    Fallible(events[k]) && pos + k in failing && AllSucceed(events[..k], pos, failing)
  }

  /** Sequence associativity, stated once for `Prepend`. Dafny proves it unaided; it is called
      where a proof needs the fact at one point without the solver searching for it. */
  lemma PrependPrepend(a: seq<Event>, b: seq<Event>, r: Run)
    ensures Prepend(a, Prepend(b, r)) == Prepend(a + b, r)
  {
    assert a + (b + r.events) == (a + b) + r.events;
  }

  /** Sequence associativity. Dafny proves it unaided; a call to it keeps the solver from
      searching for the fact in a loop body, which makes that proof markedly cheaper. */
  lemma AppendAssociates(a: seq<Event>, b: seq<Event>, c: seq<Event>)
    ensures a + b + c == a + (b + c)
  {
  }

  /** After `events` have been made, running `a` then `b` either stops inside `a` or goes on
      with `b` after `a`'s calls. */
  lemma StageThen(events: seq<Event>, a: seq<Step>, b: seq<Step>, pos: nat, failing: set<nat>)
    ensures Prepend(events, Execute(a + b, pos, failing)) ==
      var r := Execute(a, pos, failing);
      if r.err.Some? then Prepend(events, r)
      else Prepend(events + r.events, Execute(b, pos + |r.events|, failing))
  {
    ExecuteAppend(a, b, pos, failing);
    var r := Execute(a, pos, failing);
    if r.err.None? {
      PrependPrepend(events, r.events, Execute(b, pos + |r.events|, failing));
    }
  }

  lemma {:induction false} FlattenAppend(a: seq<Step>, b: seq<Step>)
    ensures Flatten(a + b) == Flatten(a) + Flatten(b)
    decreases |a|
  {
    if a == [] {
      assert a + b == b;
    } else {
      assert (a + b)[0] == a[0];
      assert (a + b)[1..] == a[1..] + b;
      FlattenAppend(a[1..], b);
    }
  }

  /** A plan of single calls makes exactly those calls. */
  lemma {:induction false} FlattenCalls(plan: seq<Step>)
    requires forall i :: 0 <= i < |plan| ==> plan[i].Call?
    ensures |Flatten(plan)| == |plan|
    ensures forall i :: 0 <= i < |plan| ==> Flatten(plan)[i] == plan[i].call
    decreases |plan|
  {
    if plan != [] {
      FlattenCalls(plan[1..]);
    }
  }

  lemma WellFormedAppend(a: seq<Step>, b: seq<Step>)
    requires WellFormed(a) && WellFormed(b)
    ensures WellFormed(a + b)
  {
    forall i | 0 <= i < |a + b| ensures WellFormedStep((a + b)[i]) {
      if i >= |a| { assert (a + b)[i] == b[i - |a|]; }
    }
  }

  /** Running `a + b` runs `a` and, when `a` returns no error, then `b` from where `a` stopped. */
  lemma {:induction false} ExecuteAppend(a: seq<Step>, b: seq<Step>, pos: nat, failing: set<nat>)
    ensures Execute(a, pos, failing).err.Some? ==> Execute(a + b, pos, failing) == Execute(a, pos, failing)
    ensures Execute(a, pos, failing).err.None? ==>
      Execute(a + b, pos, failing) ==
      Prepend(Execute(a, pos, failing).events, Execute(b, pos + |Execute(a, pos, failing).events|, failing))
    decreases |a|
  {
    if a == [] {
      assert a + b == b;
    } else {
      assert (a + b)[0] == a[0];
      assert (a + b)[1..] == a[1..] + b;
      var n := |Calls(a[0])|;
      if pos !in failing && (a[0].Call? || pos + 1 !in failing) {
        ExecuteAppend(a[1..], b, pos + n, failing);
        var r := Execute(a[1..], pos + n, failing);
        assert Execute(a + b, pos, failing) == Prepend(Calls(a[0]), Execute(a[1..] + b, pos + n, failing));
        assert Execute(a, pos, failing) == Prepend(Calls(a[0]), r);
        if r.err.None? {
          PrependPrepend(Calls(a[0]), r.events, Execute(b, pos + n + |r.events|, failing));
        }
      }
    }
  }


  /** Once the first `i` steps of a plan have run without error, the run goes on with the rest. */
  lemma ExecuteAfterPrefix(plan: seq<Step>, i: nat, pos: nat, failing: set<nat>)
    requires WellFormed(plan) && i <= |plan|
    requires AllSucceed(Flatten(plan[..i]), pos, failing)
    ensures Execute(plan, pos, failing) ==
      Prepend(Flatten(plan[..i]), Execute(plan[i..], pos + |Flatten(plan[..i])|, failing))
  {
    assert plan == plan[..i] + plan[i..];
    assert WellFormed(plan[..i]) by {
      forall j | 0 <= j < i ensures WellFormedStep(plan[..i][j]) {
        assert plan[..i][j] == plan[j];
      }
    }
    ExecuteAppend(plan[..i], plan[i..], pos, failing);
    ExecuteSucceedsIff(plan[..i], pos, failing);
  }

  /** Running a plan whose first step is a single call. */
  lemma ExecuteCallThen(s: Step, rest: seq<Step>, pos: nat, failing: set<nat>)
    requires s.Call?
    ensures Execute([s] + rest, pos, failing) ==
      if pos in failing then Run([s.call], Some(WrapAll(s.context, Cause(s.call))))
      else Prepend([s.call], Execute(rest, pos + 1, failing))
  {
    assert ([s] + rest)[1..] == rest;
  }

  /** Running a plan whose first step is a reader. */
  lemma ExecuteScopedThen(s: Step, rest: seq<Step>, pos: nat, failing: set<nat>)
    requires s.Scoped?
    ensures Execute([s] + rest, pos, failing) ==
      if pos in failing then Run([s.acquire], Some(WrapAll(s.context, Cause(s.acquire))))
      else if pos + 1 in failing then Run([s.acquire, s.use, s.release], Some(WrapAll(s.context, Cause(s.use))))
      else Prepend([s.acquire, s.use, s.release], Execute(rest, pos + 3, failing))
  {
    assert ([s] + rest)[1..] == rest;
  }

  /** A run whose first `i` steps succeed and whose `i`-th step is a reader that cannot be
      opened or saved stops at that reader. */
  lemma ExecuteStopsAtScoped(plan: seq<Step>, i: nat, pos: nat, failing: set<nat>)
    requires WellFormed(plan) && i < |plan| && plan[i].Scoped?
    requires AllSucceed(Flatten(plan[..i]), pos, failing)
    requires var p := pos + |Flatten(plan[..i])|; p in failing || p + 1 in failing
    ensures var p := pos + |Flatten(plan[..i])|;
      var s := plan[i];
      Execute(plan, pos, failing) ==
        if p in failing then Run(Flatten(plan[..i]) + [s.acquire], Some(WrapAll(s.context, Cause(s.acquire))))
        else Run(Flatten(plan[..i]) + [s.acquire, s.use, s.release], Some(WrapAll(s.context, Cause(s.use))))
  {
    ExecuteAfterPrefix(plan, i, pos, failing);
    assert plan[i..][0] == plan[i];
  }

  lemma AllSucceedAppend(a: seq<Event>, b: seq<Event>, pos: nat, failing: set<nat>)
    ensures AllSucceed(a + b, pos, failing) <==>
      AllSucceed(a, pos, failing) && AllSucceed(b, pos + |a|, failing)
  {
    if AllSucceed(a + b, pos, failing) {
      forall k | 0 <= k < |a| && Fallible(a[k]) ensures pos + k !in failing {
        assert (a + b)[k] == a[k];
      }
      forall k | 0 <= k < |b| && Fallible(b[k]) ensures pos + |a| + k !in failing {
        assert (a + b)[|a| + k] == b[k];
      }
    }
    if AllSucceed(a, pos, failing) && AllSucceed(b, pos + |a|, failing) {
      forall k | 0 <= k < |a + b| && Fallible((a + b)[k]) ensures pos + k !in failing {
        if k >= |a| { assert (a + b)[k] == b[k - |a|]; }
      }
    }
  }

  /** A stop after a prefix of calls that all succeeded is still the first failure. */
  lemma StoppedAfterPrefix(a: seq<Event>, b: seq<Event>, pos: nat, failing: set<nat>)
    requires AllSucceed(a, pos, failing)
    requires StoppedAtFirstFailure(b, pos + |a|, failing)
    ensures StoppedAtFirstFailure(a + b, pos, failing)
    ensures FailedAt(a + b) == |a| + FailedAt(b)
  {
    var k := FailedAt(b);
    assert (a + b)[|a| + k] == b[k];
    assert (a + b)[|a + b| - 1] == b[|b| - 1];
    assert FailedAt(a + b) == |a| + k;
    assert (a + b)[..|a| + k] == a + b[..k];
    AllSucceedAppend(a, b[..k], pos, failing);
  }

  /** A run returns no error exactly when no call of its plan whose error counts fails,
      and then it makes every call of the plan. */
  lemma {:induction false} ExecuteSucceedsIff(plan: seq<Step>, pos: nat, failing: set<nat>)
    requires WellFormed(plan)
    ensures Execute(plan, pos, failing).err.None? <==> AllSucceed(Flatten(plan), pos, failing)
    ensures Execute(plan, pos, failing).err.None? ==> Execute(plan, pos, failing).events == Flatten(plan)
    decreases |plan|
  {
    if plan != [] {
      WellFormedTail(plan);
      var head := Calls(plan[0]);
      AllSucceedAppend(head, Flatten(plan[1..]), pos, failing);
      match plan[0]
      case Call(e, ctx) =>
        assert AllSucceed(head, pos, failing) <==> pos !in failing by {
          assert head[0] == e;
        }
        ExecuteSucceedsIff(plan[1..], pos + 1, failing);
      case Scoped(a, u, rl, ctx) =>
        assert AllSucceed(head, pos, failing) <==> pos !in failing && pos + 1 !in failing by {
          assert head[0] == a && head[1] == u && head[2] == rl;
        }
        ExecuteSucceedsIff(plan[1..], pos + 3, failing);
    }
  }

  lemma WellFormedTail(plan: seq<Step>)
    requires plan != [] && WellFormed(plan)
    ensures WellFormedStep(plan[0]) && WellFormed(plan[1..])
  {
    forall i | 0 <= i < |plan[1..]| ensures WellFormedStep(plan[1..][i]) {
      assert plan[1..][i] == plan[i + 1];
    }
  }

  /** Every run makes a prefix of the calls of its plan. */
  lemma {:induction false} ExecuteIsPrefix(plan: seq<Step>, pos: nat, failing: set<nat>)
    ensures Execute(plan, pos, failing).events <= Flatten(plan)
    decreases |plan|
  {
    if plan != [] {
      match plan[0]
      case Call(e, ctx) =>
        ExecuteIsPrefix(plan[1..], pos + 1, failing);
      case Scoped(a, u, rl, ctx) =>
        ExecuteIsPrefix(plan[1..], pos + 3, failing);
    }
  }

  /** A run that returns an error stops at the first call that failed and returns
      that call's error. */
  lemma {:induction false} ExecuteStopsAtFirstFailure(plan: seq<Step>, pos: nat, failing: set<nat>)
    requires WellFormed(plan)
    ensures var r := Execute(plan, pos, failing);
      r.err.Some? ==>
        StoppedAtFirstFailure(r.events, pos, failing) && Root(r.err.value) == r.events[FailedAt(r.events)]
    decreases |plan|, 1
  {
    if plan != [] {
      WellFormedTail(plan);
      var r := Execute(plan, pos, failing);
      match plan[0]
      case Call(e, ctx) =>
        if pos in failing {
          assert r.events[..0] == [];
        } else {
          StopsAfterHead([e], plan[1..], pos, failing);
        }
      case Scoped(a, u, rl, ctx) =>
        if pos in failing {
          assert r.events[..0] == [];
        } else if pos + 1 in failing {
          assert r.events[..1] == [a];
        } else {
          StopsAfterHead([a, u, rl], plan[1..], pos, failing);
        }
    }
  }

  lemma {:induction false} StopsAfterHead(head: seq<Event>, rest: seq<Step>, pos: nat, failing: set<nat>)
    requires WellFormed(rest)
    requires AllSucceed(head, pos, failing)
    ensures var r' := Execute(rest, pos + |head|, failing);
      r'.err.Some? ==>
        StoppedAtFirstFailure(head + r'.events, pos, failing) &&
        Root(r'.err.value) == (head + r'.events)[FailedAt(head + r'.events)]
    decreases |rest| + 1, 0
  {
    ExecuteStopsAtFirstFailure(rest, pos + |head|, failing);
    var r' := Execute(rest, pos + |head|, failing);
    if r'.err.Some? {
      StoppedAfterPrefix(head, r'.events, pos, failing);
      assert (head + r'.events)[FailedAt(head + r'.events)] == r'.events[FailedAt(r'.events)];
    }
  }
}
