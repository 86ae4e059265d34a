/** Certificate rotation under READ COMMITTED: any number of transactions create certificates while
    accounts are enabled and disabled. A transaction for a user locks the user's row, revokes every
    active certificate of the subject, inserts the new one, and commits. The partial unique index on
    active certificates is left out on purpose: the row lock alone does its work. */
module AppCertificates {
  import opened Wrappers
  import opened Text

  datatype Subject = Subject(kind: string, id: string)

  const USER := "user"

  /** A certificate row; times are instants. */
  datatype Row = Row(subject: Subject, fingerprint: string, notBefore: int, notAfter: int, revokedAt: Option<int>)

  /** The caller's input; an empty kind means a user, an empty id the user's own. */
  datatype Input = Input(userID: string, kind: string, id: string, fingerprint: string, notBefore: int, notAfter: int)

  function SubjectOf(input: Input): Subject {
    Subject(if input.kind == "" then USER else input.kind, if input.id == "" then input.userID else input.id)
  }

  /** The row an INSERT adds. */
  function NewRow(input: Input): Row {
    Row(SubjectOf(input), input.fingerprint, input.notBefore, input.notAfter, None)
  }

  /** A users row: enabled and verified, and who holds its FOR UPDATE lock. */
  datatype Account = Account(eligible: bool, lock: Option<nat>)

  datatype Stage = Begun | Updating | Inserting | Committing | Finished | Aborted

  /** A transaction: when it began (now() throughout), its stage, and its uncommitted writes. */
  datatype Tx = Tx(input: Input, now: int, stage: Stage, revoked: map<nat, int>, inserted: Option<Row>)

  /** Committed rows in insertion order, accounts, and every transaction so far. */
  datatype State = State(rows: seq<Row>, accounts: map<string, Account>, txs: seq<Tx>)

  datatype Answer = Ok | Error | LostAnswer

  datatype Move =
    | Begin(input: Input, now: int)
    | Advance(p: nat, answer: Answer)
    | SetEligible(id: string, eligible: bool)

  predicate Active(r: Row, s: Subject) {
    r.subject == s && r.revokedAt.None?
  }

  /** The rows an UPDATE of the subject sees, read committed. */
  function Targets(rows: seq<Row>, s: Subject): set<nat> {
    set i: nat | i < |rows| && Active(rows[i], s)
  }

  /** Some other transaction holds an uncommitted update of one of these rows. */
  predicate RowLocked(txs: seq<Tx>, p: nat, targets: set<nat>) {
    exists q, i :: 0 <= q < |txs| && q != p && i in targets && i in txs[q].revoked
  }

  // ----- one statement

  function WithTx(s: State, p: nat, tx: Tx): State
    requires p < |s.txs|
  {
    s.(txs := s.txs[p := tx])
  }

  /** Commit and rollback both give the account lock back. */
  function Release(accounts: map<string, Account>, p: nat): map<string, Account> {
    map id | id in accounts :: if accounts[id].lock == Some(p) then accounts[id].(lock := None) else accounts[id]
  }

  function Abort(s: State, p: nat): State
    requires p < |s.txs|
  {
    WithTx(s, p, s.txs[p].(stage := Aborted, revoked := map[], inserted := None)).(accounts := Release(s.accounts, p))
  }

  function Apply(rows: seq<Row>, revoked: map<nat, int>): (r: seq<Row>)
    ensures |r| == |rows|
  {
    seq(|rows|, i requires 0 <= i < |rows| =>
      if i in revoked then rows[i].(revokedAt := Some(revoked[i])) else rows[i])
  }

  function Commit(s: State, p: nat, stage: Stage): State
    requires p < |s.txs|
  {
    var tx := s.txs[p];
    State(Apply(s.rows, tx.revoked) + (if tx.inserted.Some? then [tx.inserted.value] else []),
          Release(s.accounts, p),
          s.txs[p := tx.(stage := stage, revoked := map[], inserted := None)])
  }

  function Step(s: State, p: nat, answer: Answer): State
    requires p < |s.txs|
  {
    var tx := s.txs[p];
    var subject := SubjectOf(tx.input);
    if tx.stage.Finished? || tx.stage.Aborted? then s
    else if answer.Error? || (answer.LostAnswer? && !tx.stage.Committing?) then Abort(s, p)
    else match tx.stage
      case Begun =>
        if subject.kind != USER then WithTx(s, p, tx.(stage := Updating))
        else if subject.id !in s.accounts then Abort(s, p)
        else if s.accounts[subject.id].lock.Some? then s
        else if !s.accounts[subject.id].eligible then Abort(s, p)
        else WithTx(s, p, tx.(stage := Updating)).(accounts := s.accounts[subject.id := Account(true, Some(p))])
      case Updating =>
        var targets := Targets(s.rows, subject);
        if RowLocked(s.txs, p, targets) then s
        else WithTx(s, p, tx.(stage := Inserting, revoked := map i | i in targets :: tx.now))
      case Inserting =>
        WithTx(s, p, tx.(stage := Committing,
          inserted := Some(NewRow(tx.input))))
      case _ => Commit(s, p, if answer.Ok? then Finished else Aborted)
  }

  function Next(s: State, m: Move): State {
    match m
    case Begin(input, now) => s.(txs := s.txs + [Tx(input, now, Begun, map[], None)])
    case Advance(p, answer) => if p < |s.txs| then Step(s, p, answer) else s
    case SetEligible(id, eligible) =>
      if id in s.accounts && s.accounts[id].lock.Some? then s
      else s.(accounts := s.accounts[id := Account(eligible, None)])
  }

  function Run(s: State, moves: seq<Move>): State
    decreases |moves|
  {
    if moves == [] then s else Next(Run(s, moves[..|moves| - 1]), moves[|moves| - 1])
  }

  // ----- the two readers

  predicate Valid(r: Row, s: Subject, now: int) {
    Active(r, s) && r.notBefore <= now < r.notAfter
  }

  predicate SubjectEnabled(s: State, subject: Subject) {
    subject.kind != USER || (subject.id in s.accounts && s.accounts[subject.id].eligible)
  }

  /** AuthorizeActiveAppCertificateForSubject. */
  predicate Authorized(s: State, kind: string, id: string, fingerprint: string, now: int) {
    var subject := Subject(TrimSpace(kind), TrimSpace(id));
    && SubjectEnabled(s, subject)
    && exists i :: 0 <= i < |s.rows| && Valid(s.rows[i], subject, now) && s.rows[i].fingerprint == ToLower(TrimSpace(fingerprint))
  }

  /** The rows GetValidAppCertificateForSubject chooses from. */
  predicate Candidate(s: State, subject: Subject, now: int, i: nat) {
    i < |s.rows| && Valid(s.rows[i], subject, now) && SubjectEnabled(s, subject)
  }

  // ----- what every move keeps

  predicate Working(stage: Stage) {
    stage.Updating? || stage.Inserting? || stage.Committing?
  }

  predicate OneActive(rows: seq<Row>, s: Subject) {
    forall i, j :: 0 <= i < j < |rows| ==> !(Active(rows[i], s) && Active(rows[j], s))
  }

  ghost predicate TxInv(s: State, p: nat)
    requires p < |s.txs|
  {
    var tx := s.txs[p];
    var subject := SubjectOf(tx.input);
    && (forall i :: i in tx.revoked ==> i < |s.rows| && Active(s.rows[i], subject))
    && (!tx.stage.Inserting? && !tx.stage.Committing? ==> tx.revoked == map[])
    && (tx.stage.Committing? <==> tx.inserted.Some?)
    && (tx.inserted.Some? ==> tx.inserted.value == NewRow(tx.input))
    && (subject.kind == USER && Working(tx.stage) ==> subject.id in s.accounts && s.accounts[subject.id].lock == Some(p))
    && (subject.kind == USER && (tx.stage.Inserting? || tx.stage.Committing?) ==>
          forall i :: 0 <= i < |s.rows| && Active(s.rows[i], subject) ==> i in tx.revoked)
  }

  /** A held account lock belongs to a working transaction of that user. */
  ghost predicate LockInv(s: State) {
    forall id :: id in s.accounts && s.accounts[id].lock.Some? ==>
      var p := s.accounts[id].lock.value;
      p < |s.txs| && Working(s.txs[p].stage) && SubjectOf(s.txs[p].input) == Subject(USER, id)
  }

  ghost predicate Inv(s: State) {
    && (forall id :: OneActive(s.rows, Subject(USER, id)))
    && LockInv(s)
    && (forall p :: 0 <= p < |s.txs| ==> TxInv(s, p))
    && (forall p, q :: 0 <= p < q < |s.txs| ==> s.txs[p].revoked.Keys !! s.txs[q].revoked.Keys)
  }

  /** Rows are only added; a row changes only by being revoked, once. */
  predicate Extends(rows: seq<Row>, rows': seq<Row>) {
    && |rows| <= |rows'|
    && forall i :: 0 <= i < |rows| ==>
         || rows'[i] == rows[i]
         || (rows[i].revokedAt.None? && rows'[i] == rows[i].(revokedAt := rows'[i].revokedAt))
  }

  /** Two working transactions of one user cannot coexist. */
  lemma UsersApart(s: State, p: nat, q: nat)
    requires Inv(s) && p < |s.txs| && q < |s.txs| && p != q
    requires Working(s.txs[p].stage) && Working(s.txs[q].stage) && SubjectOf(s.txs[p].input).kind == USER
    ensures SubjectOf(s.txs[p].input) != SubjectOf(s.txs[q].input)
  {
    assert TxInv(s, p) && TxInv(s, q);
  }

  // ----- rollback

  lemma AbortInv(s: State, p: nat)
    requires Inv(s) && p < |s.txs|
    ensures Inv(Abort(s, p)) && Abort(s, p).rows == s.rows
  {
    var s' := Abort(s, p);
    forall q | 0 <= q < |s'.txs| ensures TxInv(s', q) {
      assert TxInv(s, q);
    }
    forall a, b | 0 <= a < b < |s'.txs| ensures s'.txs[a].revoked.Keys !! s'.txs[b].revoked.Keys {
      assert s.txs[a].revoked.Keys !! s.txs[b].revoked.Keys;
    }
  }

  // ----- commit

  /** What a commit writes: the revocations, and one more row. */
  lemma CommitRows(s: State, p: nat, stage: Stage)
    requires p < |s.txs| && TxInv(s, p) && s.txs[p].stage.Committing?
    ensures var tx := s.txs[p];
            var rows := Commit(s, p, stage).rows;
            && |rows| == |s.rows| + 1
            && rows[|s.rows|] == tx.inserted.value
            && (forall i :: 0 <= i < |s.rows| ==>
                  rows[i] == if i in tx.revoked then s.rows[i].(revokedAt := Some(tx.revoked[i])) else s.rows[i])
            && Extends(s.rows, rows)
  {}

  lemma CommitOneActive(s: State, p: nat, stage: Stage, id: string)
    requires Inv(s) && p < |s.txs| && s.txs[p].stage.Committing?
    ensures OneActive(Commit(s, p, stage).rows, Subject(USER, id))
  {
    assert TxInv(s, p);
    CommitRows(s, p, stage);
    assert OneActive(s.rows, Subject(USER, id));
  }

  lemma CommitTx(s: State, p: nat, stage: Stage, q: nat)
    requires Inv(s) && p < |s.txs| && q < |s.txs| && s.txs[p].stage.Committing? && (stage.Finished? || stage.Aborted?)
    ensures TxInv(Commit(s, p, stage), q)
  {
    assert TxInv(s, p) && TxInv(s, q);
    CommitRows(s, p, stage);
    if q != p {
      assert s.txs[q].revoked.Keys !! s.txs[p].revoked.Keys;
      if Working(s.txs[q].stage) && SubjectOf(s.txs[q].input).kind == USER { UsersApart(s, q, p); }
    }
  }

  lemma CommitInv(s: State, p: nat, stage: Stage)
    requires Inv(s) && p < |s.txs| && s.txs[p].stage.Committing? && (stage.Finished? || stage.Aborted?)
    ensures Inv(Commit(s, p, stage)) && Extends(s.rows, Commit(s, p, stage).rows)
  {
    var s' := Commit(s, p, stage);
    assert TxInv(s, p);
    CommitRows(s, p, stage);
    forall id ensures OneActive(s'.rows, Subject(USER, id)) { CommitOneActive(s, p, stage, id); }
    forall q | 0 <= q < |s'.txs| ensures TxInv(s', q) { CommitTx(s, p, stage, q); }
    forall a, b | 0 <= a < b < |s'.txs| ensures s'.txs[a].revoked.Keys !! s'.txs[b].revoked.Keys {
      assert s.txs[a].revoked.Keys !! s.txs[b].revoked.Keys;
    }
  }

  // ----- the other statements

  lemma UpdateInv(s: State, p: nat)
    requires Inv(s) && p < |s.txs| && s.txs[p].stage.Updating?
    requires !RowLocked(s.txs, p, Targets(s.rows, SubjectOf(s.txs[p].input)))
    ensures Inv(Step(s, p, Ok))
  {
    var s' := Step(s, p, Ok);
    forall q | 0 <= q < |s'.txs| ensures TxInv(s', q) { assert TxInv(s, q); }
    forall a, b | 0 <= a < b < |s'.txs| ensures s'.txs[a].revoked.Keys !! s'.txs[b].revoked.Keys {
      assert s.txs[a].revoked.Keys !! s.txs[b].revoked.Keys;
    }
  }

  lemma QuietTx(s: State, p: nat, answer: Answer, q: nat)
    requires Inv(s) && p < |s.txs| && q < |s.txs| && answer.Ok? && (s.txs[p].stage.Begun? || s.txs[p].stage.Inserting?)
    requires Step(s, p, answer) != Abort(s, p)
    ensures TxInv(Step(s, p, answer), q) && Step(s, p, answer).txs[q].revoked == s.txs[q].revoked
  {
    assert TxInv(s, q) && TxInv(s, p);
  }

  lemma QuietLock(s: State, p: nat, answer: Answer)
    requires Inv(s) && p < |s.txs| && answer.Ok? && (s.txs[p].stage.Begun? || s.txs[p].stage.Inserting?)
    requires Step(s, p, answer) != Abort(s, p)
    ensures LockInv(Step(s, p, answer))
    ensures Step(s, p, answer).rows == s.rows && |Step(s, p, answer).txs| == |s.txs|
  {
    hide TxInv, OneActive;
  }

  /** A statement that only moves its own transaction on, taking at most a free account lock. */
  lemma QuietInv(s: State, p: nat, answer: Answer)
    requires Inv(s) && p < |s.txs| && answer.Ok? && (s.txs[p].stage.Begun? || s.txs[p].stage.Inserting?)
    requires Step(s, p, answer) != Abort(s, p)
    ensures Inv(Step(s, p, answer)) && Step(s, p, answer).rows == s.rows
  {
    hide Step, TxInv, LockInv, OneActive;
    QuietLock(s, p, answer);
    var s' := Step(s, p, answer);
    forall q | 0 <= q < |s'.txs| ensures TxInv(s', q) && s'.txs[q].revoked == s.txs[q].revoked { QuietTx(s, p, answer, q); }
    assert forall a, b :: 0 <= a < b < |s'.txs| ==> s.txs[a].revoked.Keys !! s.txs[b].revoked.Keys;
  }

  lemma StepInv(s: State, p: nat, answer: Answer)
    requires Inv(s) && p < |s.txs|
    ensures Inv(Step(s, p, answer)) && Extends(s.rows, Step(s, p, answer).rows)
  {
    hide Inv, Commit, Abort, Targets, RowLocked;
    var s' := Step(s, p, answer);
    AbortInv(s, p);
    if s' != s && s' != Abort(s, p) {
      match s.txs[p].stage
      case Committing => CommitInv(s, p, if answer.Ok? then Finished else Aborted);
      case Updating => UpdateInv(s, p);
      case _ => QuietInv(s, p, answer);
    }
  }

  lemma NextInv(s: State, m: Move)
    requires Inv(s)
    ensures Inv(Next(s, m)) && Extends(s.rows, Next(s, m).rows)
  {
    match m
    case Advance(p, answer) => if p < |s.txs| { StepInv(s, p, answer); }
    case _ =>
      var s' := Next(s, m);
      forall q | 0 <= q < |s'.txs| ensures TxInv(s', q) { if q < |s.txs| { assert TxInv(s, q); } }
      forall a, b | 0 <= a < b < |s'.txs| ensures s'.txs[a].revoked.Keys !! s'.txs[b].revoked.Keys {
        if b < |s.txs| { assert s.txs[a].revoked.Keys !! s.txs[b].revoked.Keys; }
      }
  }

  lemma ExtendsTransitive(a: seq<Row>, b: seq<Row>, c: seq<Row>)
    requires Extends(a, b) && Extends(b, c)
    ensures Extends(a, c)
  {}

  lemma {:induction false} RunInv(s: State, moves: seq<Move>)
    requires Inv(s)
    ensures Inv(Run(s, moves)) && Extends(s.rows, Run(s, moves).rows)
    decreases |moves|
  {
    if moves != [] {
      var before := Run(s, moves[..|moves| - 1]);
      RunInv(s, moves[..|moves| - 1]);
      NextInv(before, moves[|moves| - 1]);
      ExtendsTransitive(s.rows, before.rows, Run(s, moves).rows);
    }
  }

  // ----- what this gives

  /** No transaction is under way, and no user has two active certificates. */
  ghost predicate Quiet(s: State) {
    && s.txs == [] && (forall id :: id in s.accounts ==> s.accounts[id].lock.None?)
    && forall id :: OneActive(s.rows, Subject(USER, id))
  }

  /** In every interleaving each user has at most one committed unrevoked certificate, and the rows revoked before the
      run stay as they are; RevocationsArePermanent says the same of those revoked during it. */
  lemma OneActiveCertificatePerUser(s: State, moves: seq<Move>, id: string)
    requires Quiet(s)
    ensures var s' := Run(s, moves);
            && OneActive(s'.rows, Subject(USER, id))
            && |s.rows| <= |s'.rows|
            && forall i :: 0 <= i < |s.rows| && s.rows[i].revokedAt.Some? ==> s'.rows[i] == s.rows[i]
  {
    RunInv(s, moves);
    assert OneActive(Run(s, moves).rows, Subject(USER, id));
  }

  lemma {:induction false} RunAppend(s: State, a: seq<Move>, b: seq<Move>)
    ensures Run(s, a + b) == Run(Run(s, a), b)
    decreases |b|
  {
    if b == [] {
      assert a + b == a;
    } else {
      assert (a + b)[..|a + b| - 1] == a + b[..|b| - 1];
      RunAppend(s, a, b[..|b| - 1]);
    }
  }

  /** At any point of any run, whatever has been revoked by then, before the run or during it, keeps its row and its
      revocation time through everything that follows. */
  lemma RevocationsArePermanent(s: State, moves: seq<Move>, more: seq<Move>, i: nat)
    requires Quiet(s) && i < |Run(s, moves).rows| && Run(s, moves).rows[i].revokedAt.Some?
    ensures i < |Run(s, moves + more).rows| && Run(s, moves + more).rows[i] == Run(s, moves).rows[i]
  {
    RunInv(s, moves);
    RunAppend(s, moves, more);
    RunInv(Run(s, moves), more);
  }

  /** So at most one fingerprint of a user is authorised at a time, and the lookup's ORDER BY and
      LIMIT never have two rows to choose from. */
  lemma OneFingerprintIsAuthorized(s: State, moves: seq<Move>, kind: string, id: string, f: string, g: string, now: int)
    requires Quiet(s) && TrimSpace(kind) == USER
    requires Authorized(Run(s, moves), kind, id, f, now) && Authorized(Run(s, moves), kind, id, g, now)
    ensures ToLower(TrimSpace(f)) == ToLower(TrimSpace(g))
  {
    OneActiveCertificatePerUser(s, moves, TrimSpace(id));
  }

  lemma LookupHasOneCandidate(s: State, moves: seq<Move>, id: string, now: int, i: nat, j: nat)
    requires Quiet(s)
    requires Candidate(Run(s, moves), Subject(USER, id), now, i) && Candidate(Run(s, moves), Subject(USER, id), now, j)
    ensures i == j
  {
    OneActiveCertificatePerUser(s, moves, id);
  }

  /** The unique index on active certificates never rejects an insert for a user: every active row
      of the subject is one the transaction has just revoked, and no other transaction of that
      user has a row of its own waiting. */
  lemma InsertMeetsNoActiveRow(s: State, moves: seq<Move>, p: nat)
    requires Quiet(s)
    ensures var s' := Run(s, moves);
            p < |s'.txs| && s'.txs[p].stage.Inserting? && SubjectOf(s'.txs[p].input).kind == USER ==>
              var subject := SubjectOf(s'.txs[p].input);
              && (forall i :: 0 <= i < |s'.rows| && Active(s'.rows[i], subject) ==> i in s'.txs[p].revoked)
              && (forall q :: 0 <= q < |s'.txs| && q != p && s'.txs[q].inserted.Some? ==>
                    !Active(s'.txs[q].inserted.value, subject))
  {
    RunInv(s, moves);
    var s' := Run(s, moves);
    if p < |s'.txs| && s'.txs[p].stage.Inserting? && SubjectOf(s'.txs[p].input).kind == USER {
      assert TxInv(s', p);
      forall q | 0 <= q < |s'.txs| && q != p && s'.txs[q].inserted.Some?
        ensures !Active(s'.txs[q].inserted.value, SubjectOf(s'.txs[p].input))
      {
        assert TxInv(s', q);
        UsersApart(s', p, q);
      }
    }
  }

  /** A commit for a user rotates: the inserted certificate is the only active one left. */
  lemma CommitRotates(s: State, moves: seq<Move>, p: nat, i: nat)
    requires Quiet(s)
    requires var s' := Run(s, moves); p < |s'.txs| && s'.txs[p].stage.Committing? && SubjectOf(s'.txs[p].input).kind == USER
    ensures var s' := Run(s, moves);
            var subject := SubjectOf(s'.txs[p].input);
            var rows := Commit(s', p, Finished).rows;
            && |rows| == |s'.rows| + 1
            && (i < |rows| && Active(rows[i], subject) <==> i == |s'.rows|)
            && rows[|s'.rows|] == NewRow(s'.txs[p].input)
  {
    RunInv(s, moves);
    var s' := Run(s, moves);
    assert TxInv(s', p);
    CommitRows(s', p, Finished);
  }
}
