/** Concurrent offline migrators: any number of processes walk the same sorted directory, each
    checking, locking, rechecking, then adopting or executing and marking one file at a time.
    A process may fail at any statement; its transaction is then rolled back. */
module SchemaMigrations {
  import opened Wrappers
  import opened Text

  /** The sorted .sql names, and those whose contents match the pinned digest. */
  datatype Config = Config(files: seq<string>, intact: set<string>)

  /** Where a migrator stands at file i. From Locked on it holds the advisory lock. */
  datatype Pc =
    | Outer(i: nat)                               // about to read the marker without the lock
    | Begun(i: nat)                               // transaction begun, lock not yet taken
    | Locked(i: nat)                              // about to recheck the marker
    | Present(i: nat)                             // someone else marked it; about to commit nothing
    | Absent(i: nat)                              // about to look for historical names
    | Fresh(i: nat)                               // about to execute the body
    | Executed(i: nat)                            // about to insert the marker
    | Pending(i: nat, stamp: int, adopts: bool)   // marker inserted; about to commit
    | Done
    | Failed

  /** schema_migrations with its timestamps, the advisory lock, and, in commit order, the bodies
      executed and the names adopted since the start. */
  datatype State = State(marks: map<string, int>, holder: Option<nat>, bodies: seq<string>, adoptions: seq<string>, pcs: seq<Pc>)

  /** How a statement ends: it succeeds at some time, it fails, or, for a commit, it takes effect
      and the answer is lost. */
  datatype Answer = Ok(now: int) | Error | LostAnswer

  const SESSIONS := "_test_lab_sessions.sql"
  const BINDINGS := "_test_lab_bindings.sql"
  const CONSOLE := "_test_lab_console_identity.sql"

  /** The historical filenames of a renamed migration. */
  function Aliases(name: string): seq<string> {
    if name == "071" + SESSIONS then ["068" + SESSIONS, "070" + SESSIONS]
    else if name == "072" + BINDINGS then ["069" + BINDINGS, "071" + BINDINGS]
    else if name == "073" + CONSOLE then ["070" + CONSOLE, "072" + CONSOLE]
    else []
  }

  predicate AliasMarked(marks: map<string, int>, name: string) {
    exists a :: a in Aliases(name) && a in marks
  }

  /** min(applied_at) over the marked names of `names`. */
  function Oldest(marks: map<string, int>, names: seq<string>): Option<int> {
    if names == [] then None
    else
      var rest := Oldest(marks, names[1..]);
      if names[0] !in marks then rest
      else if rest.None? then Some(marks[names[0]])
      else Some(Min(marks[names[0]], rest.value))
  }

  // ----- one statement of one process

  function Stop(s: State, p: nat): State
    requires p < |s.pcs|
  {
    s.(pcs := s.pcs[p := Failed], holder := if s.holder == Some(p) then None else s.holder)
  }

  function Goto(s: State, p: nat, pc: Pc): State
    requires p < |s.pcs|
  {
    s.(pcs := s.pcs[p := pc])
  }

  /** A commit publishes the marker and what it stands for, and releases the lock. */
  function Commit(s: State, p: nat, name: string, stamp: int, adopts: bool, next: Pc): State
    requires p < |s.pcs|
  {
    State(s.marks[name := stamp], None,
          if adopts then s.bodies else s.bodies + [name],
          if adopts then s.adoptions + [name] else s.adoptions,
          s.pcs[p := next])
  }

  function Next(c: Config, s: State, p: nat, answer: Answer): State {
    if p >= |s.pcs| then s
    else
      match s.pcs[p]
      case Done => s
      case Failed => s
      case Outer(i) =>
        if i >= |c.files| then Goto(s, p, Done)
        else if !answer.Ok? then Stop(s, p)
        else if c.files[i] in s.marks then Goto(s, p, Outer(i + 1))
        else Goto(s, p, Begun(i))
      case Begun(i) =>
        if !answer.Ok? then Stop(s, p)
        else if s.holder.Some? then s
        else Goto(s, p, Locked(i)).(holder := Some(p))
      case Locked(i) =>
        if !answer.Ok? || i >= |c.files| then Stop(s, p)
        else Goto(s, p, if c.files[i] in s.marks then Present(i) else Absent(i))
      case Present(i) =>
        if !answer.Ok? then Stop(s, p) else Goto(s, p, Outer(i + 1)).(holder := None)
      case Absent(i) =>
        if !answer.Ok? || i >= |c.files| then Stop(s, p)
        else if !AliasMarked(s.marks, c.files[i]) then Goto(s, p, Fresh(i))
        else if c.files[i] !in c.intact then Stop(s, p)
        else
          var oldest := Oldest(s.marks, Aliases(c.files[i]));
          if oldest.None? || c.files[i] in s.marks then Stop(s, p)
          else Goto(s, p, Pending(i, oldest.value, true))
      case Fresh(i) =>
        if !answer.Ok? then Stop(s, p) else Goto(s, p, Executed(i))
      case Executed(i) =>
        if !answer.Ok? || i >= |c.files| || c.files[i] in s.marks then Stop(s, p)
        else Goto(s, p, Pending(i, answer.now, false))
      case Pending(i, stamp, adopts) =>
        if answer.Error? || i >= |c.files| then Stop(s, p)
        else Commit(s, p, c.files[i], stamp, adopts, if answer.Ok? then Outer(i + 1) else Failed)
  }

  /** A move of a run: which process takes its next statement, and how that ends. */
  datatype Move = Move(p: nat, answer: Answer)

  function Run(c: Config, s: State, moves: seq<Move>): State
    decreases |moves|
  {
    if moves == [] then s
    else
      var last := moves[|moves| - 1];
      Next(c, Run(c, s, moves[..|moves| - 1]), last.p, last.answer)
  }

  /** N migrators about to start over the given markers. */
  predicate Starting(s: State) {
    && s.holder.None? && s.bodies == [] && s.adoptions == []
    && forall p :: 0 <= p < |s.pcs| ==> s.pcs[p] == Outer(0)
  }

  // ----- what every statement keeps

  predicate Holds(pc: Pc) {
    pc.Locked? || pc.Present? || pc.Absent? || pc.Fresh? || pc.Executed? || pc.Pending?
  }

  /** The first k files are marked. */
  predicate MarkedUpTo(c: Config, marks: map<string, int>, k: nat) {
    k <= |c.files| && forall j :: 0 <= j < k ==> c.files[j] in marks
  }

  ghost predicate PcInv(c: Config, marks: map<string, int>, pc: Pc) {
    match pc
    case Failed => true
    case Done => MarkedUpTo(c, marks, |c.files|)
    case Outer(i) => MarkedUpTo(c, marks, i)
    case Begun(i) => i < |c.files| && MarkedUpTo(c, marks, i)
    case Locked(i) => i < |c.files| && MarkedUpTo(c, marks, i)
    case Present(i) => i < |c.files| && MarkedUpTo(c, marks, i + 1)
    case Absent(i) => i < |c.files| && MarkedUpTo(c, marks, i) && c.files[i] !in marks
    case Fresh(i) => i < |c.files| && MarkedUpTo(c, marks, i) && c.files[i] !in marks && !AliasMarked(marks, c.files[i])
    case Executed(i) => i < |c.files| && MarkedUpTo(c, marks, i) && c.files[i] !in marks && !AliasMarked(marks, c.files[i])
    case Pending(i, stamp, adopts) =>
      && i < |c.files| && MarkedUpTo(c, marks, i) && c.files[i] !in marks
      && (if adopts then Oldest(marks, Aliases(c.files[i])) == Some(stamp) else !AliasMarked(marks, c.files[i]))
  }

  /** The marked names are the initial ones, the executed and the adopted, each in one way only. */
  ghost predicate Conserved(initial: map<string, int>, s: State) {
    && Distinct(s.bodies + s.adoptions)
    && (forall n :: n in s.bodies + s.adoptions ==> n !in initial)
    && (forall n :: n in s.marks <==> n in initial || n in s.bodies + s.adoptions)
    && (forall n :: n in initial ==> n in s.marks && s.marks[n] == initial[n])
  }

  /** A file marked since the start has every earlier file marked. */
  predicate InOrder(c: Config, initial: map<string, int>, marks: map<string, int>) {
    forall j :: 0 <= j < |c.files| && c.files[j] in marks && c.files[j] !in initial ==> MarkedUpTo(c, marks, j)
  }

  /** No historical name of an executed body is marked, and an adopted name keeps the oldest
      timestamp of its historical names. */
  ghost predicate AliasesRespected(s: State) {
    && (forall n :: n in s.bodies ==> !AliasMarked(s.marks, n))
    && (forall n :: n in s.adoptions && n in s.marks ==> Oldest(s.marks, Aliases(n)) == Some(s.marks[n]))
  }

  ghost predicate Inv(c: Config, initial: map<string, int>, s: State) {
    && StrictlySorted(c.files)
    && (forall p :: 0 <= p < |s.pcs| ==> PcInv(c, s.marks, s.pcs[p]))
    && (forall p :: 0 <= p < |s.pcs| ==> (s.holder == Some(p) <==> Holds(s.pcs[p])))
    && (s.holder.Some? ==> s.holder.value < |s.pcs|)
    && Conserved(initial, s)
    && InOrder(c, initial, s.marks)
    && AliasesRespected(s)
    && (forall n :: n in s.marks && n !in initial ==> n in c.files)
  }

  lemma StartingInv(c: Config, s: State)
    requires StrictlySorted(c.files) && Starting(s)
    ensures Inv(c, s.marks, s)
  {}

  // ----- historical names sort before the name that replaced them

  lemma NumberedBefore(a: string, b: string, x: string)
    requires |a| == |b| == 3 && a[0] == b[0] && (a[1] < b[1] || (a[1] == b[1] && a[2] < b[2]))
    ensures Less(a + x, b + x)
  {
    var u, v := a + x, b + x;
    assert u[1..][0] == a[1] && v[1..][0] == b[1];
    assert u[1..][1..][0] == a[2] && v[1..][1..][0] == b[2];
    assert Less(u[1..][1..], v[1..][1..]) || a[1] < b[1];
    assert Less(u[1..], v[1..]);
  }

  lemma AliasesSortBefore(name: string, a: string)
    requires a in Aliases(name)
    ensures Less(a, name)
  {
    NumberedBefore("068", "071", SESSIONS);
    NumberedBefore("070", "071", SESSIONS);
    NumberedBefore("069", "072", BINDINGS);
    NumberedBefore("071", "072", BINDINGS);
    NumberedBefore("070", "073", CONSOLE);
    NumberedBefore("072", "073", CONSOLE);
  }

  /** Marking files[i] when everything before it is marked marks no historical name of a file that
      is already marked since the start. */
  lemma AliasIsNoLaterFile(c: Config, i: nat, n: string, a: string, initial: map<string, int>, marks: map<string, int>)
    requires StrictlySorted(c.files) && i < |c.files| && c.files[i] == a && a in Aliases(n)
    requires n in c.files && n in marks && n !in initial && InOrder(c, initial, marks)
    ensures a in marks
  {
    AliasesSortBefore(n, a);
    var j :| 0 <= j < |c.files| && c.files[j] == n;
    if j < i { LessAsymmetric(c.files[j], c.files[i]); }
    LessIrreflexive(n);
    assert MarkedUpTo(c, marks, j);
  }

  lemma {:induction false} OldestSame(marks: map<string, int>, marks': map<string, int>, names: seq<string>)
    requires forall a :: a in names ==> (a in marks <==> a in marks') && (a in marks ==> marks[a] == marks'[a])
    ensures Oldest(marks, names) == Oldest(marks', names)
  {
    if names != [] {
      assert names[0] in names;
      OldestSame(marks, marks', names[1..]);
    }
  }

  /** min() over a set with a marked name exists, is a timestamp of one of them, and is below all. */
  lemma {:induction false} OldestIsMinimum(marks: map<string, int>, names: seq<string>)
    ensures Oldest(marks, names).Some? <==> exists a :: a in names && a in marks
    ensures Oldest(marks, names).Some? ==> forall a :: a in names && a in marks ==> Oldest(marks, names).value <= marks[a]
    ensures Oldest(marks, names).Some? ==> exists a :: a in names && a in marks && Oldest(marks, names).value == marks[a]
  {
    if names != [] {
      OldestIsMinimum(marks, names[1..]);
      assert names == [names[0]] + names[1..];
      assert names[0] in names;
    }
  }

  // ----- the invariant is kept

  /** A statement that commits nothing and changes one program counter. */
  lemma QuietStep(c: Config, initial: map<string, int>, s: State, s': State, p: nat, pc: Pc)
    requires Inv(c, initial, s) && p < |s.pcs| && s' == s.(pcs := s.pcs[p := pc], holder := s'.holder)
    requires PcInv(c, s.marks, pc)
    requires s'.holder == if Holds(pc) then Some(p) else if Holds(s.pcs[p]) then None else s.holder
    requires Holds(pc) ==> s.holder == None || s.holder == Some(p)
    ensures Inv(c, initial, s')
  {}

  lemma PcInvGrows(c: Config, marks: map<string, int>, marks': map<string, int>, pc: Pc)
    requires PcInv(c, marks, pc) && !Holds(pc) && forall n :: n in marks ==> n in marks'
    ensures PcInv(c, marks', pc)
  {}

  lemma CommitConserves(initial: map<string, int>, s: State, p: nat, name: string, stamp: int, adopts: bool, pc: Pc)
    requires Conserved(initial, s) && name !in s.marks && p < |s.pcs|
    ensures Conserved(initial, Commit(s, p, name, stamp, adopts, pc))
  {
    var s' := Commit(s, p, name, stamp, adopts, pc);
    var a, b := s.bodies + s.adoptions, s'.bodies + s'.adoptions;
    assert name !in a;
    if adopts {
      assert b == a + [name];
    } else {
      assert b == s.bodies + [name] + s.adoptions;
    }
    forall n ensures n in b <==> n in a || n == name {}
    forall i, j | 0 <= i < j < |b| ensures b[i] != b[j] {
      var k := if adopts then |a| else |s.bodies|;
      var i', j' := if i < k then i else i - 1, if j < k then j else j - 1;
      if i != k && j != k {
        assert b[i] == a[i'] && b[j] == a[j'];
      } else if i == k {
        assert b[j] == a[j'];
      } else {
        assert b[i] == a[i'];
      }
    }
  }

  /** Committing files[i] marks no historical name of itself or of anything marked since the start. */
  lemma CommitMarksNoAlias(c: Config, initial: map<string, int>, s: State, i: nat, n: string, a: string)
    requires StrictlySorted(c.files) && InOrder(c, initial, s.marks) && i < |c.files| && a in Aliases(n)
    requires n == c.files[i] || (n in c.files && n in s.marks && n !in initial)
    ensures a == c.files[i] ==> a in s.marks
  {
    if a == c.files[i] {
      if n == a {
        AliasesSortBefore(n, a);
        LessIrreflexive(n);
      } else {
        AliasIsNoLaterFile(c, i, n, a, initial, s.marks);
      }
    }
  }

  lemma CommitAliases(c: Config, initial: map<string, int>, s: State, p: nat, i: nat, stamp: int, adopts: bool, pc: Pc)
    requires Inv(c, initial, s) && p < |s.pcs| && s.pcs[p] == Pending(i, stamp, adopts) && PcInv(c, s.marks, s.pcs[p])
    ensures AliasesRespected(Commit(s, p, c.files[i], stamp, adopts, pc))
  {
    hide Aliases, Oldest;
    var name := c.files[i];
    var marks' := s.marks[name := stamp];
    forall n | n == name || n in s.bodies + s.adoptions
      ensures AliasMarked(marks', n) ==> AliasMarked(s.marks, n)
      ensures Oldest(marks', Aliases(n)) == Oldest(s.marks, Aliases(n))
    {
      forall a | a in Aliases(n) ensures a in marks' <==> a in s.marks {
        CommitMarksNoAlias(c, initial, s, i, n, a);
      }
      assert name !in s.marks;
      OldestSame(s.marks, marks', Aliases(n));
    }
    assert forall n :: n in s.bodies || n in s.adoptions ==> n in s.bodies + s.adoptions;
  }

  lemma CommitStep(c: Config, initial: map<string, int>, s: State, p: nat, i: nat, stamp: int, adopts: bool, pc: Pc)
    requires Inv(c, initial, s) && p < |s.pcs| && s.pcs[p] == Pending(i, stamp, adopts)
    requires pc == Outer(i + 1) || pc == Failed
    ensures Inv(c, initial, Commit(s, p, c.files[i], stamp, adopts, pc))
  {
    var s' := Commit(s, p, c.files[i], stamp, adopts, pc);
    assert s.holder == Some(p);
    CommitConserves(initial, s, p, c.files[i], stamp, adopts, pc);
    CommitAliases(c, initial, s, p, i, stamp, adopts, pc);
    forall q | 0 <= q < |s'.pcs| ensures PcInv(c, s'.marks, s'.pcs[q]) && !Holds(s'.pcs[q]) {
      if q != p { PcInvGrows(c, s.marks, s'.marks, s.pcs[q]); }
    }
    assert InOrder(c, initial, s'.marks) by {
      forall j | 0 <= j < |c.files| && c.files[j] in s'.marks && c.files[j] !in initial ensures MarkedUpTo(c, s'.marks, j) {
        if c.files[j] == c.files[i] {
          LessIrreflexive(c.files[i]);
          assert i == j;
        } else {
          assert MarkedUpTo(c, s.marks, j);
        }
      }
    }
  }

  lemma NextInv(c: Config, initial: map<string, int>, s: State, p: nat, answer: Answer)
    requires Inv(c, initial, s)
    ensures Inv(c, initial, Next(c, s, p, answer))
  {
    hide Aliases, Oldest, Conserved, InOrder, AliasesRespected;
    if p < |s.pcs| {
      assert PcInv(c, s.marks, s.pcs[p]);
      match s.pcs[p] {
        case Pending(i, stamp, adopts) =>
          if answer.Error? {
            QuietStep(c, initial, s, Stop(s, p), p, Failed);
          } else {
            CommitStep(c, initial, s, p, i, stamp, adopts, if answer.Ok? then Outer(i + 1) else Failed);
          }
        case Absent(i) => AbsentStep(c, initial, s, p, i, answer);
        case Done =>
        case Failed =>
        case Outer(i) => UnlockedStep(c, initial, s, p, answer);
        case Begun(i) => UnlockedStep(c, initial, s, p, answer);
        case _ => LockedStep(c, initial, s, p, answer);
      }
    }
  }

  lemma UnlockedStep(c: Config, initial: map<string, int>, s: State, p: nat, answer: Answer)
    requires Inv(c, initial, s) && p < |s.pcs| && (s.pcs[p].Outer? || s.pcs[p].Begun?) && PcInv(c, s.marks, s.pcs[p])
    ensures Inv(c, initial, Next(c, s, p, answer))
  {
    hide Aliases, Oldest;
    var s' := Next(c, s, p, answer);
    var pc := s'.pcs[p];
    assert !Holds(s.pcs[p]) && PcInv(c, s.marks, pc);
    if s' != s { QuietStep(c, initial, s, s', p, pc); }
  }

  lemma LockedStep(c: Config, initial: map<string, int>, s: State, p: nat, answer: Answer)
    requires Inv(c, initial, s) && p < |s.pcs| && PcInv(c, s.marks, s.pcs[p])
    requires s.pcs[p].Locked? || s.pcs[p].Present? || s.pcs[p].Fresh? || s.pcs[p].Executed?
    ensures Inv(c, initial, Next(c, s, p, answer))
  {
    hide Aliases, Oldest;
    var s' := Next(c, s, p, answer);
    var pc := s'.pcs[p];
    assert Holds(s.pcs[p]) && s.holder == Some(p) && PcInv(c, s.marks, pc);
    QuietStep(c, initial, s, s', p, pc);
  }

  lemma AbsentStep(c: Config, initial: map<string, int>, s: State, p: nat, i: nat, answer: Answer)
    requires Inv(c, initial, s) && p < |s.pcs| && s.pcs[p] == Absent(i) && PcInv(c, s.marks, s.pcs[p])
    ensures Inv(c, initial, Next(c, s, p, answer))
  {
    hide Aliases, Oldest;
    OldestIsMinimum(s.marks, Aliases(c.files[i]));
    var s' := Next(c, s, p, answer);
    var pc := s'.pcs[p];
    assert s.holder == Some(p) && PcInv(c, s.marks, pc);
    QuietStep(c, initial, s, s', p, pc);
  }

  lemma {:induction false} RunInv(c: Config, initial: map<string, int>, s: State, moves: seq<Move>)
    requires Inv(c, initial, s)
    ensures Inv(c, initial, Run(c, s, moves))
    decreases |moves|
  {
    if moves != [] {
      RunInv(c, initial, s, moves[..|moves| - 1]);
      var last := moves[|moves| - 1];
      NextInv(c, initial, Run(c, s, moves[..|moves| - 1]), last.p, last.answer);
    }
  }

  // ----- what this gives

  /** In every interleaving, the marked set is the disjoint union of the initial marks, the executed
      bodies and the adopted names; no body is executed twice, or when it or one of its historical
      names was marked at the start; initial markers keep their timestamps. */
  lemma MarksAreConserved(c: Config, s: State, moves: seq<Move>)
    requires StrictlySorted(c.files) && Starting(s)
    ensures var s' := Run(c, s, moves);
            && Conserved(s.marks, s')
            && (forall n :: n in s'.bodies ==> n !in s.marks && !AliasMarked(s.marks, n) && !AliasMarked(s'.marks, n))
  {
    StartingInv(c, s);
    RunInv(c, s.marks, s, moves);
    var s' := Run(c, s, moves);
    forall n | n in s'.bodies ensures n !in s.marks && !AliasMarked(s.marks, n) && !AliasMarked(s'.marks, n) {
      assert n in s'.bodies + s'.adoptions;
      assert AliasMarked(s.marks, n) ==> AliasMarked(s'.marks, n);
    }
  }

  /** An adopted name carries the oldest timestamp among its marked historical names. */
  lemma AdoptionsKeepTheOldestTimestamp(c: Config, s: State, moves: seq<Move>, n: string)
    requires StrictlySorted(c.files) && Starting(s) && n in Run(c, s, moves).adoptions
    ensures var marks := Run(c, s, moves).marks;
            && n in marks
            && (exists a :: a in Aliases(n) && a in marks && marks[a] == marks[n])
            && (forall a :: a in Aliases(n) && a in marks ==> marks[n] <= marks[a])
  {
    StartingInv(c, s);
    RunInv(c, s.marks, s, moves);
    var s' := Run(c, s, moves);
    assert n in s'.bodies + s'.adoptions;
    OldestIsMinimum(s'.marks, Aliases(n));
  }

  /** Files are marked in directory order, and a migrator that returned without error, having lost
      any number of races, leaves every file marked. */
  lemma MigratorsFinishInOrder(c: Config, s: State, moves: seq<Move>)
    requires StrictlySorted(c.files) && Starting(s)
    ensures var s' := Run(c, s, moves);
            && InOrder(c, s.marks, s'.marks)
            && (forall p :: 0 <= p < |s'.pcs| && s'.pcs[p].Done? ==> forall n :: n in c.files ==> n in s'.marks)
            && (forall p, q :: 0 <= p < q < |s'.pcs| ==> !(Holds(s'.pcs[p]) && Holds(s'.pcs[q])))
  {
    StartingInv(c, s);
    RunInv(c, s.marks, s, moves);
    var s' := Run(c, s, moves);
    forall p, n | 0 <= p < |s'.pcs| && s'.pcs[p].Done? && n in c.files ensures n in s'.marks {
      assert PcInv(c, s'.marks, s'.pcs[p]);
    }
  }

  /** The primary key of schema_migrations never rejects a marker: whoever is about to insert one
      holds the lock over a name nobody has marked. */
  lemma InsertNeverConflicts(c: Config, s: State, moves: seq<Move>, p: nat)
    requires StrictlySorted(c.files) && Starting(s) && p < |s.pcs|
    ensures var s' := Run(c, s, moves);
            && p < |s'.pcs|
            && (s'.pcs[p].Executed? ==>
                  s'.pcs[p].i < |c.files| && c.files[s'.pcs[p].i] !in s'.marks && s'.holder == Some(p))
  {
    StartingInv(c, s);
    RunInv(c, s.marks, s, moves);
    RunKeepsProcesses(c, s, moves);
    var s' := Run(c, s, moves);
    assert PcInv(c, s'.marks, s'.pcs[p]);
  }

  lemma {:induction false} RunKeepsProcesses(c: Config, s: State, moves: seq<Move>)
    ensures |Run(c, s, moves).pcs| == |s.pcs|
    decreases |moves|
  {
    hide Aliases, Oldest;
    if moves != [] { RunKeepsProcesses(c, s, moves[..|moves| - 1]); }
  }

  /** A failed migrator leaves nothing half done: a process that stops without committing changes
      neither the markers nor the executed bodies, and gives the lock back. */
  lemma StoppingRollsBack(c: Config, initial: map<string, int>, s: State, p: nat)
    requires Inv(c, initial, s) && p < |s.pcs|
    ensures var s' := Next(c, s, p, Error);
            && s'.marks == s.marks && s'.bodies == s.bodies && s'.adoptions == s.adoptions
            && (s.holder == Some(p) ==> s'.holder == None && s'.pcs[p] == Failed)
  {
    assert PcInv(c, s.marks, s.pcs[p]);
  }
}
