/** Who does what in a run: the finalizers and closures it calls, and the steps that the program makes itself. */
module Logs {
  import opened Heaps
  import opened HeapCounts
  import opened Coverage
  import opened HeapRuns

  /** The finalizers that are called, in order: one for each step that marks a box as finalized. */
  ghost function FinalizersIn<T>(steps: seq<Step<T>>): seq<T> {
    if steps == [] then []
    else (if steps[0].Finalize? then [steps[0].n] else []) + FinalizersIn(steps[1..])
  }

  /** The closures of `new_cyclic` that are called, in order: one for each box that waits for its value. */
  ghost function ClosuresIn<T>(steps: seq<Step<T>>): seq<T> {
    if steps == [] then []
    else (if steps[0].Hide? then [steps[0].n] else []) + ClosuresIn(steps[1..])
  }

  /** Steps that only code of the program makes.  What remains is drop glue and the collector. */
  predicate ByProgram<T>(step: Step<T>) {
    || step.New? || step.Clone? || step.Upgrade? || step.MarkAlive? || step.Store? || step.Take? || step.Unwrap?
    || step.FinalizeAgain? || step.Hide? || step.Show? || step.Release? || step.Weak?
  }

  ghost function ProgramIn<T>(steps: seq<Step<T>>): seq<Step<T>> {
    if steps == [] then []
    else (if ByProgram(steps[0]) then [steps[0]] else []) + ProgramIn(steps[1..])
  }

  lemma {:induction false} FinalizersOfBoth<T>(s: seq<Step<T>>, t: seq<Step<T>>)
    ensures FinalizersIn(s + t) == FinalizersIn(s) + FinalizersIn(t)
    decreases |s|
  {
    if s == [] {
      assert s + t == t;
    } else {
      assert s + t != [] && (s + t)[0] == s[0] && (s + t)[1..] == s[1..] + t;
      FinalizersOfBoth(s[1..], t);
      Associative(if s[0].Finalize? then [s[0].n] else [], FinalizersIn(s[1..]), FinalizersIn(t));
    }
  }

  lemma {:induction false} ClosuresOfBoth<T>(s: seq<Step<T>>, t: seq<Step<T>>)
    ensures ClosuresIn(s + t) == ClosuresIn(s) + ClosuresIn(t)
    decreases |s|
  {
    if s == [] {
      assert s + t == t;
    } else {
      assert s + t != [] && (s + t)[0] == s[0] && (s + t)[1..] == s[1..] + t;
      ClosuresOfBoth(s[1..], t);
      Associative(if s[0].Hide? then [s[0].n] else [], ClosuresIn(s[1..]), ClosuresIn(t));
    }
  }

  lemma {:induction false} ProgramOfBoth<T>(s: seq<Step<T>>, t: seq<Step<T>>)
    ensures ProgramIn(s + t) == ProgramIn(s) + ProgramIn(t)
    decreases |s|
  {
    if s == [] {
      assert s + t == t;
    } else {
      assert s + t != [] && (s + t)[0] == s[0] && (s + t)[1..] == s[1..] + t;
      ProgramOfBoth(s[1..], t);
      Associative(if ByProgram(s[0]) then [s[0]] else [], ProgramIn(s[1..]), ProgramIn(t));
    }
  }

  lemma PartsOfThen<T>(s: seq<Step<T>>, t: seq<Step<T>>)
    ensures FinalizersIn(Then(s, t)) == FinalizersIn(s) + FinalizersIn(t)
    ensures ClosuresIn(Then(s, t)) == ClosuresIn(s) + ClosuresIn(t)
    ensures ProgramIn(Then(s, t)) == ProgramIn(s) + ProgramIn(t)
  {
    hide FinalizersIn, ClosuresIn, ProgramIn;
    FinalizersOfBoth(s, t);
    ClosuresOfBoth(s, t);
    ProgramOfBoth(s, t);
  }

  lemma Associative<U>(a: seq<U>, b: seq<U>, c: seq<U>)
    ensures a + (b + c) == a + b + c
  {}

  // ----- the log ------------------------------------------------------------------------------------------

  /** The finalizers and closures that have been called, the steps that they have made, and what the last
      closure to return has returned. */
  datatype Log<T> = Log(calls: seq<T>, closures: seq<T>, ran: seq<Step<T>>, value: seq<T>) {
    ghost function Calling(b: T): Log<T> { this.(calls := calls + [b]) }
    ghost function Closing(b: T): Log<T> { this.(closures := closures + [b]) }
  }

  /** Exactly the calls that `steps` stands for have been made. */
  ghost predicate Called<T>(before: Log<T>, steps: seq<Step<T>>, after: Log<T>) {
    && after.calls == before.calls + FinalizersIn(steps)
    && after.closures == before.closures + ClosuresIn(steps)
  }

  /** ... and all the steps that are the program's have been made by that code. */
  ghost predicate Logged<T>(before: Log<T>, steps: seq<Step<T>>, after: Log<T>) {
    Called(before, steps, after) && after.ran == before.ran + ProgramIn(steps)
  }

  /** `steps` calls nothing. */
  ghost predicate CallsNothing<T>(steps: seq<Step<T>>) { FinalizersIn(steps) == [] && ClosuresIn(steps) == [] }

  lemma NothingLogged<T>(log: Log<T>)
    ensures Logged(log, [], log)
  {}

  lemma StepLogged<T>(log: Log<T>, step: Step<T>)
    ensures !ByProgram(step) && !step.Finalize? ==> Logged(log, [step], log)
    ensures step.Finalize? ==> Logged(log, [step], log.Calling(step.n))
    ensures !step.Finalize? && !step.Hide? ==> CallsNothing([step])
  {
    assert [step][1..] == [];
  }

  lemma CalledThen<T>(l: Log<T>, s: seq<Step<T>>, m: Log<T>, t: seq<Step<T>>, n: Log<T>)
    requires Called(l, s, m) && Called(m, t, n)
    ensures Called(l, Then(s, t), n)
  {
    hide FinalizersIn, ClosuresIn, Then;
    PartsOfThen(s, t);
  }

  lemma LoggedThen<T>(l: Log<T>, s: seq<Step<T>>, m: Log<T>, t: seq<Step<T>>, n: Log<T>)
    requires Logged(l, s, m) && Logged(m, t, n)
    ensures Logged(l, Then(s, t), n)
  {
    hide FinalizersIn, ClosuresIn, ProgramIn, Then;
    PartsOfThen(s, t);
  }

  lemma CallsNothingThen<T>(s: seq<Step<T>>, t: seq<Step<T>>)
    requires CallsNothing(s) && CallsNothing(t)
    ensures CallsNothing(Then(s, t))
  {
    hide FinalizersIn, ClosuresIn, Then;
    PartsOfThen(s, t);
  }

  lemma CalledNothing<T>(log: Log<T>, steps: seq<Step<T>>)
    requires CallsNothing(steps)
    ensures Called(log, steps, log)
  {}

  // ----- without the program ------------------------------------------------------------------------------

  /** Drop glue and the collector make no `Cc`, and leave those that the program holds. */
  lemma StepMakesNothing<T>(h: Heap<T>, step: Step<T>)
    requires h.Valid() && Enabled(h, step) && !ByProgram(step)
    ensures Apply(h, step).handles == h.handles && Apply(h, step).References() <= h.References()
  {
    if Quiet(step) {
      hide Apply, Enabled, Quiet;
      QuietKeepsCcs(h, step);
    } else if step.Free? {
      FreeMakesNothing(h, step.n);
    } else {
      DropMakesNothing(h, step);
    }
  }

  lemma FreeMakesNothing<T>(h: Heap<T>, n: T)
    requires h.Valid() && Enabled(h, Free(n))
    ensures Apply(h, Free(n)).handles == h.handles && Apply(h, Free(n)).References() == h.References()
  {
    FreedIsUnreferenced(h, n);
    OutFree(h.kids, n);
  }

  lemma DropMakesNothing<T>(h: Heap<T>, step: Step<T>)
    requires h.Typed() && Enabled(h, step) && (step.Lose? || step.Detach? || step.Bury?)
    ensures Apply(h, step).handles == h.handles && Apply(h, step).References() <= h.References()
  {
    hide Apply, Enabled, Heap.References, Lost, Detached, Buried;
    DropEffect(h, step);
    FewerReferences(h, step.n);
  }

  lemma DropEffect<T>(h: Heap<T>, step: Step<T>)
    requires h.Typed() && Enabled(h, step) && (step.Lose? || step.Detach? || step.Bury?)
    ensures step.n in h.kids && step.n in h.rc
    ensures Apply(h, step) == if step.Lose? then Lost(h, step.n) else if step.Detach? then Detached(h, step.n)
                              else Buried(h, step.n)
  {
    hide Lost, Detached, Buried, Heap.Accessible, Heap.AccessibleWithout, Heap.CanUpgrade;
  }

  lemma FewerReferences<T>(h: Heap<T>, n: T)
    requires n in h.kids && n in h.rc
    ensures Lost(h, n).handles == h.handles && Lost(h, n).References() <= h.References()
    ensures Detached(h, n).handles == h.handles && Detached(h, n).References() <= h.References()
    ensures Buried(h, n).handles == h.handles && Buried(h, n).References() <= h.References()
  {
    OutSet(h.kids, n, []);
  }

  lemma {:induction false} NothingMade<T>(h: Heap<T>, steps: seq<Step<T>>, h': Heap<T>)
    requires h.Valid() && Run(h, steps, h') && ProgramIn(steps) == []
    ensures h'.handles == h.handles && h'.References() <= h.References()
    decreases |steps|
  {
    if steps != [] {
      hide Apply, Enabled, Heap.References, Heap.Valid;
      assert !ByProgram(steps[0]) && ProgramIn(steps[1..]) == [];
      StepMakesNothing(h, steps[0]);
      StepKeepsValid(h, steps[0]);
      NothingMade(Apply(h, steps[0]), steps[1..], h');
    }
  }

  // ----- finalizers are called once -----------------------------------------------------------------------

  lemma {:induction false} RunSplits<T>(h: Heap<T>, steps: seq<Step<T>>, i: nat, h': Heap<T>) returns (m: Heap<T>)
    requires h.Valid() && Run(h, steps, h') && i <= |steps|
    ensures m.Valid() && Run(h, steps[..i], m) && Run(m, steps[i..], h')
    decreases |steps|
  {
    hide Apply, Enabled, Heap.Valid;
    if i == 0 {
      assert steps[0..] == steps;
      m := h;
    } else {
      StepKeepsValid(h, steps[0]);
      m := RunSplits(Apply(h, steps[0]), steps[1..], i - 1, h');
      assert steps[..i][1..] == steps[1..][..i - 1] && steps[..i][0] == steps[0];
      assert steps[1..][i - 1..] == steps[i..];
    }
  }

  /** Something allows a box to be finalized a second time. */
  ghost predicate Between<T>(steps: seq<Step<T>>, i: nat, j: nat, n: T)
    requires i < j <= |steps|
  {
    FinalizeAgain(n) in steps[i + 1..j] || Free(n) in steps[i + 1..j]
  }

  /** Between two calls of the finalizer of a box the program has asked for the second, or the box was freed. */
  ghost predicate CalledOnce<T>(steps: seq<Step<T>>) {
    forall i: nat, j: nat | i < j < |steps| && steps[i].Finalize? && steps[j] == steps[i] ::
      Between(steps, i, j, steps[i].n)
  }

  lemma FinalizedBefore<T>(h: Heap<T>, steps: seq<Step<T>>, h': Heap<T>, j: nat, n: T)
    requires h.Valid() && Run(h, steps, h') && n in h.fin && n in h.kids && j < |steps| && steps[j] == Finalize(n)
    ensures FinalizeAgain(n) in steps[..j] || Free(n) in steps[..j]
  {
    hide Apply, Enabled, Heap.Valid;
    var l := RunSplits(h, steps, j + 1, h');
    assert steps[..j + 1] == steps[..j] + [steps[j]];
    if FinalizeAgain(n) !in steps[..j] && Free(n) !in steps[..j] {
      FinalizedAtMostOnce(h, steps[..j + 1], l, n);
    }
  }

  lemma FinalizeMarks<T>(h: Heap<T>, n: T)
    requires h.Valid() && Enabled(h, Finalize(n))
    ensures Apply(h, Finalize(n)).Valid() && n in Apply(h, Finalize(n)).fin && n in Apply(h, Finalize(n)).kids
  {
    StepKeepsValid(h, Finalize(n));
  }

  lemma NotCalledAgain<T>(h: Heap<T>, steps: seq<Step<T>>, h': Heap<T>, i: nat, j: nat)
    requires h.Valid() && Run(h, steps, h') && i < j < |steps| && steps[i].Finalize? && steps[j] == steps[i]
    ensures Between(steps, i, j, steps[i].n)
  {
    hide Apply, Enabled, Heap.Valid;
    var m := RunSplits(h, steps, i, h');
    var rest := steps[i..];
    assert rest[0] == steps[i] && rest[1..] == steps[i + 1..];
    FinalizeMarks(m, steps[i].n);
    FinalizedBefore(Apply(m, steps[i]), rest[1..], h', j - i - 1, steps[i].n);
    assert rest[1..][..j - i - 1] == steps[i + 1..j];
  }

  lemma RunCallsOnce<T>(h: Heap<T>, steps: seq<Step<T>>, h': Heap<T>)
    requires h.Valid() && Run(h, steps, h')
    ensures CalledOnce(steps)
  {
    forall i: nat, j: nat | i < j < |steps| && steps[i].Finalize? && steps[j] == steps[i]
      ensures Between(steps, i, j, steps[i].n)
    {
      NotCalledAgain(h, steps, h', i, j);
    }
  }
}
