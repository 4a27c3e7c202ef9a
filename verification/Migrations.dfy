/**
 * Schema migrations. Several processes run them against one database, each file in a transaction
 * of its own that also inserts the file's name under a primary key.
 */
module Migrations {
  import opened Numbers

  /** A migration file, known by its name. Directories list each name once. */
  type File = nat

  predicate Distinct(files: seq<File>) {
    forall i, j :: 0 <= i < j < |files| ==> files[i] != files[j]
  }

  // ---------------------------------------------------------------- one process alone

  /** What goes wrong at a file: nothing, its check, something before its commit takes effect, or
      the answer to a commit that did take effect. */
  datatype Fault = NoFault | OnCheck | BeforeCommit | CommitLost

  function Missing(files: seq<File>, applied: seq<File>): seq<File> {
    if files == [] then [] else
      var n := |files| - 1;
      if files[n] in applied then Missing(files[..n], applied) else Missing(files[..n], applied) + [files[n]]
  }

  /** What is missing is what is not applied. */
  lemma {:induction false} MissingExactly(files: seq<File>, applied: seq<File>, f: File)
    ensures f in Missing(files, applied) <==> f in files && f !in applied
  {
    if files != [] {
      var n := |files| - 1;
      MissingExactly(files[..n], applied, f);
      assert files == files[..n] + [files[n]];
    }
  }

  lemma {:induction false} MissingAreFiles(files: seq<File>, applied: seq<File>)
    ensures forall f :: f in Missing(files, applied) ==> f in files
  {
    if files != [] {
      var n := |files| - 1;
      MissingAreFiles(files[..n], applied);
      assert files[n] in files && forall f :: f in files[..n] ==> f in files;
    }
  }

  /** On a log that is a prefix of the list, what is missing completes the list. */
  lemma {:induction false} MissingCompletes(files: seq<File>, applied: seq<File>)
    requires Distinct(files) && applied <= files
    ensures applied + Missing(files, applied) == files
    decreases |files|
  {
    var n := |files| - 1;
    if files == applied {
      NothingMissing(files, applied);
    } else {
      var before := files[..n];
      assert applied <= before;
      MissingCompletes(before, applied);
      assert files[n] !in applied by {
        assert forall i :: 0 <= i < |applied| ==> applied[i] == files[i];
      }
      assert files == before + [files[n]];
    }
  }

  lemma {:induction false} NothingMissing(files: seq<File>, applied: seq<File>)
    requires forall f :: f in files ==> f in applied
    ensures Missing(files, applied) == []
  {
    if files != [] {
      var n := |files| - 1;
      assert files[n] in files && forall f :: f in files[..n] ==> f in files;
      NothingMissing(files[..n], applied);
    }
  }

  class Database {
    /** The committed files, in the order of their commits. */
    var log: seq<File>

    constructor ()
      ensures log == []
    {
      log := [];
    }

    /** Succeeds exactly when no fault stops it, and then has applied, in order, what was missing. */
    method Migrate(files: seq<File>, faults: nat -> Fault) returns (ok: bool)
      requires Distinct(files)
      modifies this
      ensures ok <==> forall i: nat :: i < |files| ==>
                        faults(i).NoFault? || (files[i] in old(log) && !faults(i).OnCheck?)
      ensures ok ==> log == old(log) + Missing(files, old(log))
      ensures exists k :: 0 <= k <= |files| && log == old(log) + Missing(files[..k], old(log))
    {
      for i := 0 to |files|
        invariant forall j: nat :: j < i ==> faults(j).NoFault? || (files[j] in old(log) && !faults(j).OnCheck?)
        invariant log == old(log) + Missing(files[..i], old(log))
      {
        assert files[..i + 1][..i] == files[..i];
        MissingAreFiles(files[..i], old(log));
        if faults(i).OnCheck? {
          return false;
        }
        assert files[i] in log <==> files[i] in old(log) by {
          assert files[i] !in files[..i];
        }
        if files[i] in log {
          continue;
        }
        if faults(i).BeforeCommit? {
          return false;
        }
        log := log + [files[i]];
        assert log == old(log) + Missing(files[..i + 1], old(log));
        if faults(i).CommitLost? {
          return false;
        }
      }
      assert files[..|files|] == files;
      ok := true;
    }
  }

  // ---------------------------------------------------------------- several processes

  type Process = nat

  /** Where a process is: before the check of file i, having found it missing, having executed its
      text, having inserted its name, and so holding the key, uncommitted. */
  datatype Stage =
    | At(i: nat)
    | Pending(i: nat)
    | Executed(i: nat)
    | Recorded(i: nat)
    | Done
    | Failed

  /** A process sees the first files of the common list: its own release may lack the last ones. */
  datatype Run = Run(sees: nat, stage: Stage)

  datatype State = State(log: seq<File>, runs: map<Process, Run>)

  datatype Event =
    | Arrive(p: Process, sees: nat)
    | Check(p: Process)
    | Execute(p: Process)
    | Record(p: Process)
    | Commit(p: Process)
    | LoseCommit(p: Process)
    | Finish(p: Process)
    | Fail(p: Process)

  predicate Open(s: State, p: Process) {
    p in s.runs && !s.runs[p].stage.Done? && !s.runs[p].stage.Failed?
  }

  /** Inserting a name waits for an uncommitted insert of the same name. */
  predicate Enabled(s: State, e: Event, files: seq<File>) {
    match e
    case Arrive(p, sees) => p !in s.runs && sees <= |files|
    case Check(p) => Open(s, p) && s.runs[p].stage.At? && s.runs[p].stage.i < s.runs[p].sees <= |files|
    case Execute(p) => Open(s, p) && s.runs[p].stage.Pending?
    case Record(p) => Open(s, p) && s.runs[p].stage.Executed? && s.runs[p].stage.i < |files|
                      && forall q :: q in s.runs ==> s.runs[q].stage != Recorded(s.runs[p].stage.i)
    case Commit(p) => Open(s, p) && s.runs[p].stage.Recorded? && s.runs[p].stage.i < |files|
    case LoseCommit(p) => Open(s, p) && s.runs[p].stage.Recorded? && s.runs[p].stage.i < |files|
    case Finish(p) => Open(s, p) && s.runs[p].stage.At? && s.runs[p].stage.i == s.runs[p].sees
    case Fail(p) => Open(s, p)
  }

  function Goto(s: State, p: Process, stage: Stage): State
    requires p in s.runs
  {
    s.(runs := s.runs[p := s.runs[p].(stage := stage)])
  }

  function Next(s: State, e: Event, files: seq<File>): State
    requires Enabled(s, e, files)
  {
    match e
    case Arrive(p, sees) => s.(runs := s.runs[p := Run(sees, At(0))])
    case Check(p) =>
      var i := s.runs[p].stage.i;
      Goto(s, p, if files[i] in s.log then At(i + 1) else Pending(i))
    case Execute(p) => Goto(s, p, Executed(s.runs[p].stage.i))
    case Record(p) =>
      var i := s.runs[p].stage.i;
      Goto(s, p, if files[i] in s.log then Failed else Recorded(i))
    case Commit(p) =>
      var i := s.runs[p].stage.i;
      Goto(s, p, At(i + 1)).(log := s.log + [files[i]])
    case LoseCommit(p) =>
      Goto(s, p, Failed).(log := s.log + [files[s.runs[p].stage.i]])
    case Finish(p) => Goto(s, p, Done)
    case Fail(p) => Goto(s, p, Failed)
  }

  predicate CanRun(s: State, es: seq<Event>, files: seq<File>)
    decreases |es|
  {
    es == [] || (Enabled(s, es[0], files) && CanRun(Next(s, es[0], files), es[1..], files))
  }

  function EndOf(s: State, es: seq<Event>, files: seq<File>): State
    requires CanRun(s, es, files)
    decreases |es|
  {
    if es == [] then s else EndOf(Next(s, es[0], files), es[1..], files)
  }

  // ---------------------------------------------------------------- the log stays a prefix

  /** How many files the process has behind it. */
  function Passed(r: Run): nat {
    match r.stage
    case At(i) => i
    case Pending(i) => i
    case Executed(i) => i
    case Recorded(i) => i
    case Done => r.sees
    case Failed => 0
  }

  /** The process has committed or found every file behind it, and holds the key of the next file
      to be committed if it holds one. */
  predicate Sound(r: Run, committed: nat, total: nat) {
    && Passed(r) <= committed && r.sees <= total
    && (r.stage.Pending? || r.stage.Executed? || r.stage.Recorded? ==> r.stage.i < r.sees)
    && (r.stage.At? ==> r.stage.i <= r.sees)
    && (r.stage.Recorded? ==> r.stage.i == committed)
  }

  ghost predicate Valid(s: State, files: seq<File>) {
    && s.log <= files
    && (forall p :: p in s.runs ==> Sound(s.runs[p], |s.log|, |files|))
    && (forall p, q :: p in s.runs && q in s.runs && s.runs[p].stage.Recorded? && s.runs[q].stage.Recorded? ==> p == q)
  }

  /** In a prefix of distinct files, exactly the first ones are present. */
  lemma InPrefix(log: seq<File>, files: seq<File>, i: nat)
    requires Distinct(files) && log <= files && i < |files|
    ensures files[i] in log <==> i < |log|
  {
    if i < |log| {
      assert log[i] == files[i];
    }
  }

  lemma CommitKeepsValid(s: State, e: Event, files: seq<File>)
    requires Valid(s, files) && Enabled(s, e, files) && (e.Commit? || e.LoseCommit?)
    ensures Valid(Next(s, e, files), files)
  {
    var s' := Next(s, e, files);
    var i := s.runs[e.p].stage.i;
    assert Sound(s.runs[e.p], |s.log|, |files|);
    assert s.log + [files[i]] <= files;
    forall q | q in s'.runs ensures Sound(s'.runs[q], |s'.log|, |files|) {
      assert Sound(s.runs[q], |s.log|, |files|);
      if q != e.p {
        assert !s.runs[q].stage.Recorded?;
      }
    }
  }

  lemma RecordKeepsValid(s: State, p: Process, files: seq<File>)
    requires Distinct(files) && Valid(s, files) && Enabled(s, Record(p), files)
    ensures Valid(Next(s, Record(p), files), files)
  {
    var s' := Next(s, Record(p), files);
    assert Sound(s.runs[p], |s.log|, |files|);
    InPrefix(s.log, files, s.runs[p].stage.i);
    forall q | q in s'.runs ensures Sound(s'.runs[q], |s'.log|, |files|) {
      assert q in s.runs && (q != p ==> Sound(s.runs[q], |s.log|, |files|));
    }
    forall q | q in s.runs && s.runs[q].stage.Recorded? ensures s'.runs[p].stage.Failed? {
      assert Sound(s.runs[q], |s.log|, |files|);
    }
  }

  lemma NextKeepsValid(s: State, e: Event, files: seq<File>)
    requires Distinct(files) && Valid(s, files) && Enabled(s, e, files)
    ensures Valid(Next(s, e, files), files)
    ensures s.log <= Next(s, e, files).log
  {
    if e.Commit? || e.LoseCommit? {
      CommitKeepsValid(s, e, files);
    } else if e.Record? {
      RecordKeepsValid(s, e.p, files);
    } else {
      if e.Check? {
        InPrefix(s.log, files, s.runs[e.p].stage.i);
      }
      var s' := Next(s, e, files);
      forall q | q in s'.runs ensures Sound(s'.runs[q], |s'.log|, |files|) {
        assert q in s.runs ==> Sound(s.runs[q], |s.log|, |files|);
      }
    }
  }

  lemma {:induction false} RunKeepsValid(s: State, es: seq<Event>, files: seq<File>)
    requires Distinct(files) && Valid(s, files) && CanRun(s, es, files)
    ensures Valid(EndOf(s, es, files), files)
    ensures s.log <= EndOf(s, es, files).log
    decreases |es|
  {
    if es != [] {
      NextKeepsValid(s, es[0], files);
      RunKeepsValid(Next(s, es[0], files), es[1..], files);
    }
  }

  /** However the processes interleave, fail and crash: the committed log only grows and is always a
      prefix of the list; no file is committed twice; and a process that has succeeded leaves all
      the files it sees applied. */
  lemma MigrationsApplyInOrderOnce(start: seq<File>, es: seq<Event>, files: seq<File>)
    requires Distinct(files) && start <= files && CanRun(State(start, map[]), es, files)
    ensures var s := EndOf(State(start, map[]), es, files);
            && start <= s.log <= files
            && Distinct(s.log)
            && (forall p :: p in s.runs && s.runs[p].stage.Done? ==>
                  s.runs[p].sees <= |files| && files[..s.runs[p].sees] <= s.log)
            && (forall p :: p in s.runs && s.runs[p] == Run(|files|, Done) ==> s.log == files)
  {
    RunKeepsValid(State(start, map[]), es, files);
    var s := EndOf(State(start, map[]), es, files);
    forall p | p in s.runs && s.runs[p].stage.Done?
      ensures s.runs[p].sees <= |files| && files[..s.runs[p].sees] <= s.log
    {
      assert Sound(s.runs[p], |s.log|, |files|);
    }
  }

  // ---------------------------------------------------------------- who wins the race

  predicate Faultless(es: seq<Event>) {
    forall e :: e in es ==> !e.Fail? && !e.LoseCommit?
  }

  /** Some process is at the front: it has not failed and has every committed file behind it. Before
      the first commit nobody has failed. */
  ghost predicate Led(s: State, start: seq<File>) {
    if s.log == start then forall p :: p in s.runs ==> !s.runs[p].stage.Failed?
    else exists p :: p in s.runs && !s.runs[p].stage.Failed? && Passed(s.runs[p]) >= |s.log|
  }

  /** Nobody has found a committed file missing. */
  ghost predicate NoneBehind(s: State, start: seq<File>) {
    forall p :: p in s.runs && (s.runs[p].stage.Pending? || s.runs[p].stage.Executed?) ==> s.runs[p].stage.i >= |start|
  }

  lemma NextKeepsLed(s: State, e: Event, start: seq<File>, files: seq<File>)
    requires Distinct(files) && Valid(s, files) && Enabled(s, e, files) && !e.Fail? && !e.LoseCommit?
    requires start <= s.log && Led(s, start)
    requires s.log == start ==> NoneBehind(s, start)
    ensures Led(Next(s, e, files), start)
    ensures Next(s, e, files).log == start ==> NoneBehind(Next(s, e, files), start)
  {
    var s' := Next(s, e, files);
    if e.Check? || e.Record? {
      InPrefix(s.log, files, s.runs[e.p].stage.i);
    }
    if e.Commit? {
      assert s'.runs[e.p].stage == At(|s.log| + 1);
    } else if s.log != start {
      var p :| p in s.runs && !s.runs[p].stage.Failed? && Passed(s.runs[p]) >= |s.log|;
      assert p in s'.runs && !s'.runs[p].stage.Failed? && Passed(s'.runs[p]) >= |s'.log|;
    }
  }

  lemma {:induction false} RunKeepsLed(s: State, es: seq<Event>, start: seq<File>, files: seq<File>)
    requires Distinct(files) && Valid(s, files) && CanRun(s, es, files) && Faultless(es)
    requires start <= s.log && Led(s, start)
    requires s.log == start ==> NoneBehind(s, start)
    ensures Led(EndOf(s, es, files), start)
    decreases |es|
  {
    if es != [] {
      NextKeepsLed(s, es[0], start, files);
      NextKeepsValid(s, es[0], files);
      RunKeepsLed(Next(s, es[0], files), es[1..], start, files);
    }
  }

  /** The race for a key makes losers fail, but never everyone: without other faults, once somebody
      has arrived, somebody has not failed. */
  lemma SomebodySurvives(start: seq<File>, es: seq<Event>, files: seq<File>)
    requires Distinct(files) && start <= files && CanRun(State(start, map[]), es, files) && Faultless(es)
    ensures var s := EndOf(State(start, map[]), es, files);
            s.runs != map[] ==> exists p :: p in s.runs && !s.runs[p].stage.Failed?
  {
    RunKeepsLed(State(start, map[]), es, start, files);
    var s := EndOf(State(start, map[]), es, files);
    if s.runs != map[] && s.log == start {
      var p :| p in s.runs;
    }
  }

  ghost predicate Leads(s: State, end: State, files: seq<File>) {
    exists es :: Faultless(es) && CanRun(s, es, files) && EndOf(s, es, files) == end
  }

  lemma LeadsBack(s: State, e: Event, end: State, files: seq<File>)
    requires Enabled(s, e, files) && !e.Fail? && !e.LoseCommit? && Leads(Next(s, e, files), end, files)
    ensures Leads(s, end, files)
  {
    var n := Next(s, e, files);
    var es :| Faultless(es) && CanRun(n, es, files) && EndOf(n, es, files) == end;
    assert ([e] + es)[1..] == es;
    assert Faultless([e] + es) && CanRun(s, [e] + es, files) && EndOf(s, [e] + es, files) == end;
  }

  // ---------------------------------------------------------------- who can win it

  /** What a process at the front leaves when it has committed the next file. */
  function Overtaken(s: State, q: Process, files: seq<File>): State
    requires q in s.runs && |s.log| < |files|
  {
    Goto(s, q, At(|s.log| + 1)).(log := s.log + [files[|s.log|]])
  }

  /** Without any fault the process may end successfully, with all files that it sees applied. */
  ghost predicate CanWin(s: State, p: Process, files: seq<File>) {
    exists end :: Leads(s, end, files) && Won(end, p, files)
  }

  predicate Won(s: State, p: Process, files: seq<File>) {
    p in s.runs && s.runs[p].stage.Done? && s.runs[p].sees <= |files| && files[..s.runs[p].sees] <= s.log
  }

  lemma WinBack(s: State, e: Event, p: Process, files: seq<File>)
    requires Enabled(s, e, files) && !e.Fail? && !e.LoseCommit? && CanWin(Next(s, e, files), p, files)
    ensures CanWin(s, p, files)
  {
    var end :| Leads(Next(s, e, files), end, files) && Won(end, p, files);
    LeadsBack(s, e, end, files);
  }

  ghost predicate NobodyInserts(s: State) {
    forall q :: q in s.runs ==> !s.runs[q].stage.Recorded?
  }

  /** A process between two files succeeds when nobody holds a key and nobody disturbs it. */
  lemma {:induction false} CanSucceed(s: State, p: Process, files: seq<File>)
    requires Distinct(files) && Valid(s, files) && Open(s, p) && s.runs[p].stage.At? && NobodyInserts(s)
    ensures CanWin(s, p, files)
    decreases |files| - s.runs[p].stage.i
  {
    var i, sees := s.runs[p].stage.i, s.runs[p].sees;
    assert Sound(s.runs[p], |s.log|, |files|);
    if i == sees {
      var end := Next(s, Finish(p), files);
      assert files[..sees] <= s.log by {
        assert s.log <= files && |s.log| >= sees;
      }
      assert Faultless([]) && CanRun(end, [], files) && EndOf(end, [], files) == end;
      LeadsBack(s, Finish(p), end, files);
    } else if i < |s.log| {
      InPrefix(s.log, files, i);
      NextKeepsValid(s, Check(p), files);
      CanSucceed(Next(s, Check(p), files), p, files);
      WinBack(s, Check(p), p, files);
    } else {
      var applied := Overtaken(s, p, files);
      AppliesNext(s, p, files);
      CanSucceed(applied, p, files);
      WinByApplying(s, p, files);
    }
  }

  lemma AppliesNext(s: State, p: Process, files: seq<File>)
    requires Distinct(files) && Valid(s, files) && NobodyInserts(s)
    requires p in s.runs && s.runs[p].stage == At(|s.log|) && |s.log| < s.runs[p].sees <= |files|
    ensures Valid(Overtaken(s, p, files), files) && NobodyInserts(Overtaken(s, p, files))
  {
    var s' := Overtaken(s, p, files);
    assert Sound(s.runs[p], |s.log|, |files|);
    forall q | q in s'.runs ensures Sound(s'.runs[q], |s'.log|, |files|) && !s'.runs[q].stage.Recorded? {
      assert Sound(s.runs[q], |s.log|, |files|);
    }
  }

  /** The process checks, executes, inserts and commits the next file. */
  lemma WinByApplying(s: State, p: Process, files: seq<File>)
    requires Distinct(files) && s.log <= files && NobodyInserts(s)
    requires p in s.runs && s.runs[p].stage == At(|s.log|) && |s.log| < s.runs[p].sees <= |files|
    requires CanWin(Overtaken(s, p, files), p, files)
    ensures CanWin(s, p, files)
  {
    var i := |s.log|;
    InPrefix(s.log, files, i);
    var pending, executed, recorded := Goto(s, p, Pending(i)), Goto(s, p, Executed(i)), Goto(s, p, Recorded(i));
    assert Next(recorded, Commit(p), files) == Overtaken(s, p, files);
    WinBack(recorded, Commit(p), p, files);
    assert Next(executed, Record(p), files) == recorded;
    WinBack(executed, Record(p), p, files);
    assert Next(pending, Execute(p), files) == executed;
    WinBack(pending, Execute(p), p, files);
    WinBack(s, Check(p), p, files);
  }

  // ---------------------------------------------------------------- who can lose it

  /** Without any fault the process may still end up failed. */
  ghost predicate CanLose(s: State, p: Process, files: seq<File>) {
    exists end :: Leads(s, end, files) && p in end.runs && end.runs[p].stage.Failed?
  }

  /** A file that the process is going to insert, or has found missing, may be committed by another. */
  predicate AtRisk(s: State, p: Process)
    requires Open(s, p)
  {
    match s.runs[p].stage
    case At(_) => |s.log| < s.runs[p].sees
    case Pending(_) => true
    case Executed(_) => true
    case Recorded(i) => i + 1 < s.runs[p].sees
  }

  lemma LoseBack(s: State, e: Event, p: Process, files: seq<File>)
    requires Enabled(s, e, files) && !e.Fail? && !e.LoseCommit? && CanLose(Next(s, e, files), p, files)
    ensures CanLose(s, p, files)
  {
    var end :| Leads(Next(s, e, files), end, files) && p in end.runs && end.runs[p].stage.Failed?;
    LeadsBack(s, e, end, files);
  }

  /** The file has been committed by another process. */
  lemma LateInsertLoses(s: State, p: Process, files: seq<File>)
    requires Enabled(s, Record(p), files) && files[s.runs[p].stage.i] in s.log
    ensures CanLose(s, p, files)
  {
    var end := Next(s, Record(p), files);
    assert Faultless([]) && CanRun(end, [], files) && EndOf(end, [], files) == end;
    LeadsBack(s, Record(p), end, files);
  }

  /** A process with everything committed behind it commits the next file. */
  lemma RivalCommits(s: State, p: Process, q: Process, files: seq<File>)
    requires q in s.runs && s.runs[q].stage == At(|s.log|) && |s.log| < s.runs[q].sees <= |files|
    requires files[|s.log|] !in s.log && forall r :: r in s.runs ==> !s.runs[r].stage.Recorded?
    requires CanLose(Overtaken(s, q, files), p, files)
    ensures CanLose(s, p, files)
  {
    var i := |s.log|;
    var pending, executed, recorded := Goto(s, q, Pending(i)), Goto(s, q, Executed(i)), Goto(s, q, Recorded(i));
    assert Next(recorded, Commit(q), files) == Overtaken(s, q, files);
    LoseBack(recorded, Commit(q), p, files);
    assert Next(executed, Record(q), files) == recorded;
    LoseBack(executed, Record(q), p, files);
    assert Next(pending, Execute(q), files) == executed;
    LoseBack(pending, Execute(q), p, files);
    LoseBack(s, Check(q), p, files);
  }

  /** A process finds the files behind it in the log. */
  lemma {:induction false} RivalCatchesUp(s: State, p: Process, q: Process, j: nat, files: seq<File>)
    requires Distinct(files) && s.log <= files && q in s.runs && s.runs[q] == Run(|files|, At(j)) && j <= |s.log|
    requires CanLose(Goto(s, q, At(|s.log|)), p, files)
    ensures CanLose(s, p, files)
    decreases |s.log| - j
  {
    if j < |s.log| {
      InPrefix(s.log, files, j);
      var next := Next(s, Check(q), files);
      assert Goto(next, q, At(|s.log|)) == Goto(s, q, At(|s.log|));
      RivalCatchesUp(next, p, q, j + 1, files);
      LoseBack(s, Check(q), p, files);
    } else {
      assert Goto(s, q, At(|s.log|)) == s;
    }
  }

  /** A process that has executed the next file to be committed: another one can commit it first. */
  lemma ExecutedCanLose(s: State, p: Process, files: seq<File>)
    requires Distinct(files) && Valid(s, files) && Open(s, p) && s.runs[p].stage.Executed?
    ensures CanLose(s, p, files)
  {
    var i := s.runs[p].stage.i;
    assert Sound(s.runs[p], |s.log|, |files|);
    InPrefix(s.log, files, i);
    if i < |s.log| {
      forall q | q in s.runs ensures s.runs[q].stage != Recorded(i) {
        assert Sound(s.runs[q], |s.log|, |files|);
      }
      LateInsertLoses(s, p, files);
    } else if q :| q in s.runs && s.runs[q].stage.Recorded? {
      assert Sound(s.runs[q], |s.log|, |files|);
      LateInsertLoses(Next(s, Commit(q), files), p, files);
      LoseBack(s, Commit(q), p, files);
    } else {
      var q := FreshNumber(s.runs.Keys);
      var arrived := Next(s, Arrive(q, |files|), files);
      var front := Goto(arrived, q, At(|s.log|));
      LateInsertLoses(Overtaken(front, q, files), p, files);
      RivalCommits(front, p, q, files);
      RivalCatchesUp(arrived, p, q, 0, files);
      LoseBack(s, Arrive(q, |files|), p, files);
    }
  }

  lemma PendingCanLose(s: State, p: Process, files: seq<File>)
    requires Distinct(files) && Valid(s, files) && Open(s, p) && s.runs[p].stage.Pending?
    ensures CanLose(s, p, files)
  {
    NextKeepsValid(s, Execute(p), files);
    ExecutedCanLose(Next(s, Execute(p), files), p, files);
    LoseBack(s, Execute(p), p, files);
  }

  /** A process that still has an uncommitted file ahead. */
  lemma {:induction false} CheckingCanLose(s: State, p: Process, files: seq<File>)
    requires Distinct(files) && Valid(s, files) && Open(s, p) && s.runs[p].stage.At? && |s.log| < s.runs[p].sees
    ensures CanLose(s, p, files)
    decreases |s.log| - s.runs[p].stage.i
  {
    assert Sound(s.runs[p], |s.log|, |files|);
    InPrefix(s.log, files, s.runs[p].stage.i);
    var next := Next(s, Check(p), files);
    NextKeepsValid(s, Check(p), files);
    if s.runs[p].stage.i < |s.log| {
      CheckingCanLose(next, p, files);
    } else {
      PendingCanLose(next, p, files);
    }
    LoseBack(s, Check(p), p, files);
  }

  /** Out of the others' reach: succeeded, or with every file that it sees committed or under its key. */
  predicate Ahead(s: State, p: Process) {
    p in s.runs &&
    match s.runs[p].stage
    case At(_) => |s.log| >= s.runs[p].sees
    case Recorded(i) => i + 1 >= s.runs[p].sees
    case Done => true
    case _ => false
  }

  lemma NextKeepsAhead(s: State, e: Event, p: Process, files: seq<File>)
    requires Distinct(files) && Valid(s, files) && Enabled(s, e, files) && !e.Fail? && !e.LoseCommit?
    requires Ahead(s, p)
    ensures Ahead(Next(s, e, files), p)
  {
    assert Sound(s.runs[p], |s.log|, |files|);
    if e == Check(p) {
      InPrefix(s.log, files, s.runs[p].stage.i);
    }
  }

  lemma {:induction false} RunKeepsAhead(s: State, es: seq<Event>, p: Process, files: seq<File>)
    requires Distinct(files) && Valid(s, files) && CanRun(s, es, files) && Faultless(es) && Ahead(s, p)
    ensures Ahead(EndOf(s, es, files), p)
    decreases |es|
  {
    if es != [] {
      NextKeepsAhead(s, es[0], p, files);
      NextKeepsValid(s, es[0], files);
      RunKeepsAhead(Next(s, es[0], files), es[1..], p, files);
    }
  }

  /** From any reachable state: without any fault, a process can still fail exactly when it has found a
      file missing, or has an uncommitted file ahead besides the one whose key it holds. */
  lemma CanLoseIffAtRisk(s: State, p: Process, files: seq<File>)
    requires Distinct(files) && Valid(s, files) && Open(s, p)
    ensures CanLose(s, p, files) <==> AtRisk(s, p)
  {
    assert Sound(s.runs[p], |s.log|, |files|);
    if !AtRisk(s, p) {
      forall end | Leads(s, end, files) ensures Ahead(end, p) {
        var es :| Faultless(es) && CanRun(s, es, files) && EndOf(s, es, files) == end;
        RunKeepsAhead(s, es, p, files);
      }
    } else if s.runs[p].stage.Recorded? {
      NextKeepsValid(s, Commit(p), files);
      CheckingCanLose(Next(s, Commit(p), files), p, files);
      LoseBack(s, Commit(p), p, files);
    } else if s.runs[p].stage.At? {
      CheckingCanLose(s, p, files);
    } else if s.runs[p].stage.Pending? {
      PendingCanLose(s, p, files);
    } else {
      ExecutedCanLose(s, p, files);
    }
  }

  /** Before it is started: a process can lose exactly when some file that it sees is not committed. */
  lemma StartIsSafeIff(s: State, p: Process, sees: nat, files: seq<File>)
    requires Distinct(files) && Valid(s, files) && p !in s.runs && sees <= |files|
    ensures CanLose(Next(s, Arrive(p, sees), files), p, files) <==> exists i :: 0 <= i < sees && files[i] !in s.log
  {
    NextKeepsValid(s, Arrive(p, sees), files);
    CanLoseIffAtRisk(Next(s, Arrive(p, sees), files), p, files);
    forall i: nat | i < sees ensures files[i] !in s.log <==> i >= |s.log| {
      InPrefix(s.log, files, i);
    }
    if |s.log| < sees {
      assert files[|s.log|] !in s.log;
    }
  }

  /** The first process on an empty database, with one file to apply, can lose to a second one. */
  lemma LoserFails(f: File)
    ensures CanLose(State([], map[0 := Run(1, At(0))]), 0, [f])
  {
    var empty := State([], map[]);
    assert Next(empty, Arrive(0, 1), [f]) == State([], map[0 := Run(1, At(0))]);
    assert [f][0] !in empty.log;
    StartIsSafeIff(empty, 0, 1, [f]);
  }
}
