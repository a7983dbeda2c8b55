/** Any number of writers on one entity, step by step, in every interleaving. */
module OccInterleaving {
  import opened Occ
  import opened Options

  /**
   * Where a writer stands. A read-modify-write call reads value and version together; an
   * apply_delta call comes with a version chosen before, then reads the value only.
   */
  datatype Phase =
    | Idle
    | Called(expected: int)
    | Holding(expected: int, value: int, seen: int)
    | Committed
    | GaveUp

  /** seen and base are not stored by the program: the versions at the last and at the first read. */
  datatype Writer = Writer(delta: int, phase: Phase, failures: nat, base: int)

  datatype State = State(entity: Versioned, writers: seq<Writer>, maxRetries: nat)

  datatype Step =
    | ReadBoth(w: nat)
    | Call(w: nat, expected: int)
    | ReadValue(w: nat)
    | Swap(w: nat)

  /** The version at a writer's first read of the current operation. */
  function FirstBase(wr: Writer, version: int): int {
    if wr.failures == 0 then version else wr.base
  }

  /** What a writer and the entity are after the writer's step; a step out of turn does nothing. */
  function StepOne(e: Versioned, wr: Writer, maxRetries: nat, a: Step): (Versioned, Writer) {
    match (a, wr.phase)
    case (ReadBoth(_), Idle) =>
      (e, wr.(phase := Holding(e.version, e.value, e.version), base := FirstBase(wr, e.version)))
    case (Call(_, expected), Idle) => (e, wr.(phase := Called(expected)))
    case (ReadValue(_), Called(expected)) =>
      (e, wr.(phase := Holding(expected, e.value, e.version), base := FirstBase(wr, e.version)))
    case (Swap(_), Holding(expected, value, _)) =>
      var (e', r) := Cas(e, expected, value + wr.delta);
      if r.Swapped? then (e', wr.(phase := Committed))
      else (e', wr.(phase := if wr.failures == maxRetries then GaveUp else Idle, failures := wr.failures + 1))
    case _ => (e, wr)
  }

  function Next(s: State, a: Step): State {
    if a.w >= |s.writers| then s else
      var (e, wr) := StepOne(s.entity, s.writers[a.w], s.maxRetries, a);
      s.(entity := e, writers := s.writers[a.w := wr])
  }

  function Exec(s: State, steps: seq<Step>): State {
    if steps == [] then s else Next(Exec(s, steps[..|steps| - 1]), steps[|steps| - 1])
  }

  function Fresh(delta: int): Writer {
    Writer(delta, Idle, 0, 0)
  }

  function Writers(deltas: seq<int>): seq<Writer> {
    seq(|deltas|, i requires 0 <= i < |deltas| => Fresh(deltas[i]))
  }

  function Start(e: Versioned, deltas: seq<int>, maxRetries: nat): State {
    State(e, Writers(deltas), maxRetries)
  }

  /** The sum of the deltas of the writers that committed. */
  function CommittedSum(ws: seq<Writer>): int {
    if ws == [] then 0 else
      CommittedSum(ws[..|ws| - 1]) + if ws[|ws| - 1].phase.Committed? then ws[|ws| - 1].delta else 0
  }

  function CommittedCount(ws: seq<Writer>): nat {
    if ws == [] then 0 else
      CommittedCount(ws[..|ws| - 1]) + if ws[|ws| - 1].phase.Committed? then 1 else 0
  }

  lemma {:induction false} CommitChanges(ws: seq<Writer>, i: nat, wr: Writer)
    requires i < |ws| && wr.delta == ws[i].delta && !ws[i].phase.Committed?
    ensures CommittedSum(ws[i := wr]) == CommittedSum(ws) + if wr.phase.Committed? then wr.delta else 0
    ensures CommittedCount(ws[i := wr]) == CommittedCount(ws) + if wr.phase.Committed? then 1 else 0
  {
    var n := |ws| - 1;
    if i < n {
      CommitChanges(ws[..n], i, wr);
      assert ws[i := wr][..n] == ws[..n][i := wr];
    } else {
      assert ws[i := wr][..n] == ws[..n];
    }
  }

  lemma {:induction false} CountBounded(ws: seq<Writer>)
    ensures CommittedCount(ws) <= |ws|
    ensures (exists i :: 0 <= i < |ws| && !ws[i].phase.Committed?) ==> CommittedCount(ws) < |ws|
  {
    if ws != [] {
      CountBounded(ws[..|ws| - 1]);
    }
  }

  // ---- No lost update ----

  /** Value and version account for exactly the committed writers. */
  ghost predicate Accounted(s: State, e: Versioned) {
    && s.entity.value == e.value + CommittedSum(s.writers)
    && s.entity.version == e.version + CommittedCount(s.writers)
  }

  /** A writer's expected version was reached before it read, and reading the current version means reading the current value. */
  ghost predicate Honest(e: Versioned, wr: Writer) {
    && (wr.phase.Called? ==> wr.phase.expected <= e.version)
    && (wr.phase.Holding? ==>
         wr.phase.expected <= wr.phase.seen <= e.version
         && (wr.phase.seen == e.version ==> wr.phase.value == e.value))
  }

  ghost predicate AllHonest(s: State) {
    forall i :: 0 <= i < |s.writers| ==> Honest(s.entity, s.writers[i])
  }

  /** The version given to an apply_delta call has already been reached. */
  ghost predicate Reached(s: State, a: Step) {
    a.Call? ==> a.expected <= s.entity.version
  }

  ghost predicate AllReached(s: State, steps: seq<Step>) {
    steps != [] ==>
      var n := |steps| - 1;
      AllReached(s, steps[..n]) && Reached(Exec(s, steps[..n]), steps[n])
  }

  lemma {:induction false} NextKeepsAccounted(s: State, a: Step, e: Versioned)
    requires Accounted(s, e) && AllHonest(s) && Reached(s, a)
    ensures Accounted(Next(s, a), e) && AllHonest(Next(s, a))
  {
    if a.w < |s.writers| {
      var (e', wr) := StepOne(s.entity, s.writers[a.w], s.maxRetries, a);
      if !s.writers[a.w].phase.Committed? {
        CommitChanges(s.writers, a.w, wr);
      } else {
        assert s.writers[a.w := wr] == s.writers;
      }
    }
  }

  lemma {:induction false} FreshIsUncommitted(deltas: seq<int>)
    ensures CommittedSum(Writers(deltas)) == 0 && CommittedCount(Writers(deltas)) == 0
  {
    NoneCommitted(Writers(deltas));
  }

  lemma {:induction false} NoneCommitted(ws: seq<Writer>)
    requires forall i :: 0 <= i < |ws| ==> !ws[i].phase.Committed?
    ensures CommittedSum(ws) == 0 && CommittedCount(ws) == 0
  {
    if ws != [] {
      NoneCommitted(ws[..|ws| - 1]);
    }
  }

  lemma {:induction false} RunsAreAccounted(e: Versioned, deltas: seq<int>, maxRetries: nat, steps: seq<Step>)
    requires AllReached(Start(e, deltas, maxRetries), steps)
    ensures var s := Exec(Start(e, deltas, maxRetries), steps); Accounted(s, e) && AllHonest(s)
  {
    var s0 := Start(e, deltas, maxRetries);
    if steps == [] {
      FreshIsUncommitted(deltas);
    } else {
      var n := |steps| - 1;
      RunsAreAccounted(e, deltas, maxRetries, steps[..n]);
      NextKeepsAccounted(Exec(s0, steps[..n]), steps[n], e);
    }
  }

  /**
   * No lost update, for any writers in any interleaving: the value is the initial value plus the
   * deltas of exactly those that committed, and the version counts them.
   */
  lemma {:induction false} NoLostUpdate(e: Versioned, deltas: seq<int>, maxRetries: nat, steps: seq<Step>)
    requires AllReached(Start(e, deltas, maxRetries), steps)
    ensures Accounted(Exec(Start(e, deltas, maxRetries), steps), e)
  {
    RunsAreAccounted(e, deltas, maxRetries, steps);
  }

  // ---- A version guessed ahead loses updates ----

  /** Writers first..first+k-1 read and commit, one after the other. */
  function CommitEach(first: nat, k: nat): seq<Step> {
    if k == 0 then [] else CommitEach(first, k - 1) + [ReadBoth(first + k - 1), Swap(first + k - 1)]
  }

  lemma {:induction false} ExecConcat(s: State, x: seq<Step>, y: seq<Step>)
    ensures Exec(s, x + y) == Exec(Exec(s, x), y)
  {
    if y == [] {
      assert x + y == x;
    } else {
      assert (x + y)[..|x + y| - 1] == x + y[..|y| - 1];
      ExecConcat(s, x, y[..|y| - 1]);
    }
  }

  lemma {:induction false} ExecTwo(s: State, a: Step, b: Step)
    ensures Exec(s, [a, b]) == Next(Next(s, a), b)
  {
    assert [a, b][..1] == [a] && [a][..0] == [];
    assert Exec(s, [a]) == Next(s, a);
  }

  lemma {:induction false} OneCommits(s: State, w: nat, d: int) returns (wr: Writer)
    requires w < |s.writers| && s.writers[w] == Fresh(d)
    ensures wr.phase.Committed? && wr.delta == d
    ensures Exec(s, [ReadBoth(w), Swap(w)]) ==
            State(Versioned(s.entity.value + d, s.entity.version + 1), s.writers[w := wr], s.maxRetries)
  {
    ExecTwo(s, ReadBoth(w), Swap(w));
    wr := Exec(s, [ReadBoth(w), Swap(w)]).writers[w];
  }

  /** The sum of some deltas. */
  function DeltaSum(deltas: seq<int>): int {
    if deltas == [] then 0 else DeltaSum(deltas[..|deltas| - 1]) + deltas[|deltas| - 1]
  }

  /** The writers from `first` on commit one after the other; the rest of the state stays. */
  lemma {:induction false} OthersCommit(s: State, first: nat, deltas: seq<int>)
    requires first + |deltas| <= |s.writers|
    requires forall i :: first <= i < first + |deltas| ==> s.writers[i] == Fresh(deltas[i - first])
    ensures var t := Exec(s, CommitEach(first, |deltas|));
      && t.entity == Versioned(s.entity.value + DeltaSum(deltas), s.entity.version + |deltas|)
      && |t.writers| == |s.writers| && t.maxRetries == s.maxRetries
      && (forall i :: 0 <= i < first || first + |deltas| <= i < |s.writers| ==> t.writers[i] == s.writers[i])
      && (forall i :: first <= i < first + |deltas| ==> t.writers[i].phase.Committed? && t.writers[i].delta == deltas[i - first])
  {
    if deltas != [] {
      var n := |deltas| - 1;
      var w := first + n;
      OthersCommit(s, first, deltas[..n]);
      var t := Exec(s, CommitEach(first, n));
      ExecConcat(s, CommitEach(first, n), [ReadBoth(w), Swap(w)]);
      assert t.writers[w] == Fresh(deltas[n]);
      var wr := OneCommits(t, w, deltas[n]);
    }
  }

  /** One apply_delta writer, and any read-modify-write writers. */
  function Crowd(d0: int, others: seq<int>): seq<int> {
    [d0] + others
  }

  /** The schedule in which the apply_delta writer calls and reads first and swaps last. */
  function GuessSchedule(e: int, k: nat): seq<Step> {
    [Call(0, e), ReadValue(0)] + (CommitEach(1, k) + [Swap(0)])
  }

  lemma {:induction false} GuessBegins(e: Versioned, d0: int, others: seq<int>, maxRetries: nat, g: int)
    ensures var s := Exec(Start(e, Crowd(d0, others), maxRetries), [Call(0, g), ReadValue(0)]);
      && s.entity == e && |s.writers| == |others| + 1
      && s.writers[0].phase == Holding(g, e.value, e.version) && s.writers[0].delta == d0
      && forall i :: 1 <= i < 1 + |others| ==> s.writers[i] == Fresh(others[i - 1])
  {
    ExecTwo(Start(e, Crowd(d0, others), maxRetries), Call(0, g), ReadValue(0));
  }

  /** A version guessed ahead by as many commits as there are others wipes out all of theirs. */
  lemma {:induction false} GuessAheadLoses(e: Versioned, d0: int, others: seq<int>, maxRetries: nat)
    requires others != []
    ensures var s := Exec(Start(e, Crowd(d0, others), maxRetries), GuessSchedule(e.version + |others|, |others|));
      s.entity == Versioned(e.value + d0, e.version + |others| + 1) && CommittedSum(s.writers) == d0 + DeltaSum(others)
  {
    var g := e.version + |others|;
    var s0 := Start(e, Crowd(d0, others), maxRetries);
    var s1 := Exec(s0, [Call(0, g), ReadValue(0)]);
    GuessBegins(e, d0, others, maxRetries, g);
    ExecConcat(s0, [Call(0, g), ReadValue(0)], CommitEach(1, |others|) + [Swap(0)]);
    GuessEnds(s1, e, d0, others);
  }

  lemma {:induction false} GuessEnds(s1: State, e: Versioned, d0: int, others: seq<int>)
    requires s1.entity == e && |s1.writers| == |others| + 1
    requires s1.writers[0].phase == Holding(e.version + |others|, e.value, e.version) && s1.writers[0].delta == d0
    requires forall i :: 1 <= i < 1 + |others| ==> s1.writers[i] == Fresh(others[i - 1])
    ensures var s := Exec(s1, CommitEach(1, |others|) + [Swap(0)]);
      s.entity == Versioned(e.value + d0, e.version + |others| + 1) && CommittedSum(s.writers) == d0 + DeltaSum(others)
  {
    OthersCommit(s1, 1, others);
    var s2 := Exec(s1, CommitEach(1, |others|));
    assert s2.writers[0] == s1.writers[0];
    ExecConcat(s1, CommitEach(1, |others|), [Swap(0)]);
    ExecOne(s2, Swap(0));
    AllCommittedSum(Next(s2, Swap(0)).writers, d0, others);
  }

  lemma {:induction false} AllCommittedSum(ws: seq<Writer>, d0: int, others: seq<int>)
    requires |ws| == |others| + 1 && ws[0].delta == d0
    requires forall i :: 0 <= i < |ws| ==> ws[i].phase.Committed?
    requires forall i :: 1 <= i < |ws| ==> ws[i].delta == others[i - 1]
    ensures CommittedSum(ws) == d0 + DeltaSum(others)
  {
    if |ws| == 1 {
      assert ws[..0] == [];
    } else {
      AllCommittedSum(ws[..|ws| - 1], d0, others[..|others| - 1]);
    }
  }

  /** However many others there are, whatever they add and however they run, no update is lost. */
  ghost predicate SafeWithGuess(e: Versioned, g: int, d0: int, maxRetries: nat) {
    forall others: seq<int>, steps: seq<Step> ::
      AllReached(Exec(Start(e, Crowd(d0, others), maxRetries), [Call(0, g)]), steps) ==>
      Accounted(Exec(Exec(Start(e, Crowd(d0, others), maxRetries), [Call(0, g)]), steps), e)
  }

  lemma {:induction false} HonestRunsAreAccounted(s: State, steps: seq<Step>, e: Versioned)
    requires Accounted(s, e) && AllHonest(s) && AllReached(s, steps)
    ensures Accounted(Exec(s, steps), e) && AllHonest(Exec(s, steps))
  {
    if steps != [] {
      var n := |steps| - 1;
      HonestRunsAreAccounted(s, steps[..n], e);
      NextKeepsAccounted(Exec(s, steps[..n]), steps[n], e);
    }
  }

  lemma {:induction false} NoCallsReached(s: State, steps: seq<Step>)
    requires forall a :: a in steps ==> !a.Call?
    ensures AllReached(s, steps)
  {
    if steps != [] {
      NoCallsReached(s, steps[..|steps| - 1]);
    }
  }

  lemma {:induction false} CommitEachHasNoCalls(first: nat, k: nat)
    ensures forall a :: a in CommitEach(first, k) ==> !a.Call?
  {
    if k > 0 {
      CommitEachHasNoCalls(first, k - 1);
    }
  }

  lemma {:induction false} ExecOne(s: State, a: Step)
    ensures Exec(s, [a]) == Next(s, a)
  {
    assert [a][..0] == [];
  }

  lemma {:induction false} ReachedGuessIsSafe(e: Versioned, g: int, d0: int, others: seq<int>, maxRetries: nat, steps: seq<Step>)
    requires g <= e.version
    requires AllReached(Exec(Start(e, Crowd(d0, others), maxRetries), [Call(0, g)]), steps)
    ensures Accounted(Exec(Exec(Start(e, Crowd(d0, others), maxRetries), [Call(0, g)]), steps), e)
  {
    var s0 := Start(e, Crowd(d0, others), maxRetries);
    FreshIsUncommitted(Crowd(d0, others));
    ExecOne(s0, Call(0, g));
    NextKeepsAccounted(s0, Call(0, g), e);
    HonestRunsAreAccounted(Next(s0, Call(0, g)), steps, e);
  }

  lemma {:induction false} GuessAheadIsUnsafe(e: Versioned, d0: int, others: seq<int>, maxRetries: nat) returns (steps: seq<Step>)
    requires others != [] && DeltaSum(others) != 0
    ensures var s := Exec(Start(e, Crowd(d0, others), maxRetries), [Call(0, e.version + |others|)]);
      AllReached(s, steps) && !Accounted(Exec(s, steps), e)
  {
    var g := e.version + |others|;
    var s0 := Start(e, Crowd(d0, others), maxRetries);
    steps := [ReadValue(0)] + (CommitEach(1, |others|) + [Swap(0)]);
    GuessAheadLoses(e, d0, others, maxRetries);
    assert GuessSchedule(g, |others|) == [Call(0, g)] + steps;
    ExecConcat(s0, [Call(0, g)], steps);
    CommitEachHasNoCalls(1, |others|);
    NoCallsReached(Exec(s0, [Call(0, g)]), steps);
  }

  /** k writers that add one cent each. */
  lemma {:induction false} Ones(k: nat) returns (deltas: seq<int>)
    ensures |deltas| == k && DeltaSum(deltas) == k
  {
    deltas := [];
    if k > 0 {
      var fewer := Ones(k - 1);
      deltas := fewer + [1];
      assert deltas[..k - 1] == fewer;
    }
  }

  /**
   * apply_delta ignores the version it reads. Where reading suspends, as with a store behind a
   * network, it is safe among any writers with any deltas exactly when the version it was given had
   * already been reached when it was called.
   */
  lemma {:induction false} ApplyDeltaSafeIff(e: Versioned, g: int, d0: int, maxRetries: nat)
    ensures SafeWithGuess(e, g, d0, maxRetries) <==> g <= e.version
  {
    if g <= e.version {
      forall others: seq<int>, steps: seq<Step> | AllReached(Exec(Start(e, Crowd(d0, others), maxRetries), [Call(0, g)]), steps)
        ensures Accounted(Exec(Exec(Start(e, Crowd(d0, others), maxRetries), [Call(0, g)]), steps), e)
      {
        ReachedGuessIsSafe(e, g, d0, others, maxRetries, steps);
      }
    } else {
      var others := Ones(g - e.version);
      var steps := GuessAheadIsUnsafe(e, d0, others, maxRetries);
      assert e.version + |others| == g;
      assert AllReached(Exec(Start(e, Crowd(d0, others), maxRetries), [Call(0, g)]), steps);
    }
  }

  // ---- An apply_delta that is not interrupted ----

  /** Nobody runs between the read and the swap of an apply_delta call, except at the end of the list. */
  ghost predicate Unbroken(steps: seq<Step>) {
    forall i :: 0 <= i < |steps| - 1 && steps[i].ReadValue? ==> steps[i + 1] == Swap(steps[i].w)
  }

  /** A swap of this writer now would lose nothing. */
  ghost predicate Ready(e: Versioned, wr: Writer) {
    wr.phase.Holding? ==> wr.phase.expected <= e.version && (wr.phase.expected == e.version ==> wr.phase.value == e.value)
  }

  /** This writer has just read the value. */
  ghost predicate Current(e: Versioned, wr: Writer) {
    wr.phase.Holding? && wr.phase.value == e.value
  }

  /** All are ready, or current because the last step was their read. */
  ghost predicate AllReady(s: State, last: Option<Step>) {
    forall i :: 0 <= i < |s.writers| ==>
      Ready(s.entity, s.writers[i]) || (last == Some(ReadValue(i)) && Current(s.entity, s.writers[i]))
  }

  function LastOf(steps: seq<Step>): Option<Step> {
    if steps == [] then None else Some(steps[|steps| - 1])
  }

  lemma {:induction false} NextKeepsReady(s: State, last: Option<Step>, a: Step, e: Versioned)
    requires Accounted(s, e) && AllReady(s, last)
    requires last.Some? && last.value.ReadValue? ==> a == Swap(last.value.w)
    ensures Accounted(Next(s, a), e) && AllReady(Next(s, a), Some(a))
  {
    if a.w < |s.writers| {
      var (e', wr) := StepOne(s.entity, s.writers[a.w], s.maxRetries, a);
      if !s.writers[a.w].phase.Committed? {
        CommitChanges(s.writers, a.w, wr);
      } else {
        assert s.writers[a.w := wr] == s.writers;
      }
    }
  }

  lemma {:induction false} UnbrokenRuns(e: Versioned, deltas: seq<int>, maxRetries: nat, steps: seq<Step>)
    requires Unbroken(steps)
    ensures var s := Exec(Start(e, deltas, maxRetries), steps); Accounted(s, e) && AllReady(s, LastOf(steps))
  {
    var s0 := Start(e, deltas, maxRetries);
    if steps == [] {
      FreshIsUncommitted(deltas);
    } else {
      var n := |steps| - 1;
      assert Unbroken(steps[..n]) by {
        assert forall i :: 0 <= i < n ==> steps[..n][i] == steps[i];
      }
      UnbrokenRuns(e, deltas, maxRetries, steps[..n]);
      if n > 0 {
        assert LastOf(steps[..n]) == Some(steps[n - 1]);
      }
      NextKeepsReady(Exec(s0, steps[..n]), LastOf(steps[..n]), steps[n], e);
    }
  }

  /**
   * In memory, apply_delta never suspends between its read and its swap. Then it loses no update,
   * whatever version it is given, among any writers in any interleaving.
   */
  lemma {:induction false} UninterruptedDeltaIsSafe(e: Versioned, deltas: seq<int>, maxRetries: nat, steps: seq<Step>)
    requires Unbroken(steps)
    ensures Accounted(Exec(Start(e, deltas, maxRetries), steps), e)
  {
    UnbrokenRuns(e, deltas, maxRetries, steps);
  }

  // ---- Progress of read-modify-write writers ----

  /** Only whole read-modify-write attempts. */
  ghost predicate ReadModifyWrite(steps: seq<Step>) {
    forall a :: a in steps ==> a.ReadBoth? || a.Swap?
  }

  /** Each failed attempt is paid for by a commit of another writer since the first read. */
  ghost predicate Charged(e: Versioned, wr: Writer, start: int) {
    && !wr.phase.Called?
    && (wr.failures > 0 || wr.phase.Holding? || wr.phase.Committed? ==> start <= wr.base)
    && (wr.phase.Idle? || wr.phase.GaveUp? ==> wr.failures > 0 ==> wr.base + wr.failures <= e.version)
    && (wr.phase.GaveUp? ==> wr.failures > 0)
    && (wr.phase.Committed? ==> wr.base + wr.failures + 1 <= e.version)
    && (wr.phase.Holding? ==>
         wr.phase.expected == wr.phase.seen && wr.base + wr.failures <= wr.phase.seen <= e.version)
  }

  ghost predicate AllCharged(s: State, start: int) {
    forall i :: 0 <= i < |s.writers| ==> Charged(s.entity, s.writers[i], start)
  }

  lemma {:induction false} NextKeepsCharged(s: State, a: Step, start: int)
    requires AllCharged(s, start) && (a.ReadBoth? || a.Swap?) && start <= s.entity.version
    ensures AllCharged(Next(s, a), start)
  {
  }

  lemma {:induction false} RunsAreCharged(e: Versioned, deltas: seq<int>, maxRetries: nat, steps: seq<Step>)
    requires ReadModifyWrite(steps)
    ensures var s := Exec(Start(e, deltas, maxRetries), steps);
      AllCharged(s, e.version) && Accounted(s, e) && |s.writers| == |deltas| && s.maxRetries == maxRetries
  {
    var s0 := Start(e, deltas, maxRetries);
    NoCallsReached(s0, steps);
    RunsAreAccounted(e, deltas, maxRetries, steps);
    if steps != [] {
      var n := |steps| - 1;
      RunsAreCharged(e, deltas, maxRetries, steps[..n]);
      NextKeepsCharged(Exec(s0, steps[..n]), steps[n], e.version);
    }
  }

  /** A writer fails at most as often as others committed since its first read. */
  lemma {:induction false} FailuresAreOthersCommits(e: Versioned, deltas: seq<int>, maxRetries: nat, steps: seq<Step>, i: nat)
    requires ReadModifyWrite(steps) && i < |deltas|
    ensures var s := Exec(Start(e, deltas, maxRetries), steps);
      && i < |s.writers|
      && (s.writers[i].failures > 0 ==>
           s.writers[i].failures <= s.entity.version - s.writers[i].base - if s.writers[i].phase.Committed? then 1 else 0)
  {
    RunsAreCharged(e, deltas, maxRetries, steps);
    var s := Exec(Start(e, deltas, maxRetries), steps);
    assert Charged(s.entity, s.writers[i], e.version);
  }

  ghost predicate SomeoneGaveUp(s: State) {
    exists i :: 0 <= i < |s.writers| && s.writers[i].phase.GaveUp?
  }

  /** Giving up takes one failure more than the retries. */
  ghost predicate GaveUpLate(s: State) {
    forall i :: 0 <= i < |s.writers| ==>
      && (s.writers[i].phase.GaveUp? ==> s.writers[i].failures == s.maxRetries + 1)
      && (!s.writers[i].phase.GaveUp? ==> s.writers[i].failures <= s.maxRetries)
  }

  lemma {:induction false} RunsGiveUpLate(s: State, steps: seq<Step>)
    requires GaveUpLate(s)
    ensures GaveUpLate(Exec(s, steps))
  {
    if steps != [] {
      RunsGiveUpLate(s, steps[..|steps| - 1]);
    }
  }

  lemma {:induction false} EnoughRetries(e: Versioned, deltas: seq<int>, maxRetries: nat, steps: seq<Step>)
    requires ReadModifyWrite(steps) && maxRetries >= |deltas| - 1
    ensures !SomeoneGaveUp(Exec(Start(e, deltas, maxRetries), steps))
  {
    var s := Exec(Start(e, deltas, maxRetries), steps);
    RunsAreCharged(e, deltas, maxRetries, steps);
    RunsGiveUpLate(Start(e, deltas, maxRetries), steps);
    CountBounded(s.writers);
    forall i | 0 <= i < |s.writers|
      ensures !s.writers[i].phase.GaveUp?
    {
      assert Charged(s.entity, s.writers[i], e.version);
    }
  }

  /** Writer 0 reads, the next writer commits, writer 0 fails: k times over. */
  function Starve(k: nat): seq<Step> {
    if k == 0 then [] else Starve(k - 1) + ([ReadBoth(0), ReadBoth(k)] + [Swap(k), Swap(0)])
  }

  lemma {:induction false} StarveIsReadModifyWrite(k: nat)
    ensures ReadModifyWrite(Starve(k))
  {
    if k > 0 {
      StarveIsReadModifyWrite(k - 1);
    }
  }

  lemma {:induction false} StarveRound(s: State, k: nat, d0: int, dk: int)
    requires 1 <= k < |s.writers| && s.writers[k] == Fresh(dk)
    requires s.writers[0].phase == Idle && s.writers[0].failures <= s.maxRetries
    ensures var t := Exec(s, [ReadBoth(0), ReadBoth(k)] + [Swap(k), Swap(0)]);
      && |t.writers| == |s.writers| && t.maxRetries == s.maxRetries
      && (forall i :: k < i < |s.writers| ==> t.writers[i] == s.writers[i])
      && t.writers[0].failures == s.writers[0].failures + 1
      && t.writers[0].phase == if s.writers[0].failures == s.maxRetries then GaveUp else Idle
  {
    ExecConcat(s, [ReadBoth(0), ReadBoth(k)], [Swap(k), Swap(0)]);
    ExecTwo(s, ReadBoth(0), ReadBoth(k));
    ExecTwo(Exec(s, [ReadBoth(0), ReadBoth(k)]), Swap(k), Swap(0));
  }

  lemma {:induction false} StarveFails(e: Versioned, deltas: seq<int>, maxRetries: nat, k: nat)
    requires k < |deltas| && k <= maxRetries + 1
    ensures var s := Exec(Start(e, deltas, maxRetries), Starve(k));
      && |s.writers| == |deltas| && s.maxRetries == maxRetries
      && (forall i :: k < i < |deltas| ==> s.writers[i] == Fresh(deltas[i]))
      && s.writers[0].failures == k
      && s.writers[0].phase == if k == maxRetries + 1 then GaveUp else Idle
  {
    if k > 0 {
      StarveFails(e, deltas, maxRetries, k - 1);
      var s0 := Start(e, deltas, maxRetries);
      ExecConcat(s0, Starve(k - 1), [ReadBoth(0), ReadBoth(k)] + [Swap(k), Swap(0)]);
      StarveRound(Exec(s0, Starve(k - 1)), k, deltas[0], deltas[k]);
    }
  }

  /**
   * With W writers that each commit once, no schedule at all makes one give up exactly when
   * max_retries is at least W - 1.
   */
  lemma {:induction false} NoGiveUpIff(e: Versioned, deltas: seq<int>, maxRetries: nat)
    ensures (forall steps :: ReadModifyWrite(steps) ==> !SomeoneGaveUp(Exec(Start(e, deltas, maxRetries), steps)))
       <==> maxRetries >= |deltas| - 1
  {
    if maxRetries >= |deltas| - 1 {
      forall steps | ReadModifyWrite(steps)
        ensures !SomeoneGaveUp(Exec(Start(e, deltas, maxRetries), steps))
      {
        EnoughRetries(e, deltas, maxRetries, steps);
      }
    } else {
      StarveFails(e, deltas, maxRetries, maxRetries + 1);
      StarveIsReadModifyWrite(maxRetries + 1);
      var s := Exec(Start(e, deltas, maxRetries), Starve(maxRetries + 1));
      assert s.writers[0].phase.GaveUp?;
    }
  }
}
