/** CreateAppCertificate as the sequence of statements one request issues, while other requests
    issue theirs in between. Every such execution is a run of the certificate machine. */
module CertificateStore {
  import opened Wrappers
  import opened AppCertificates

  /** What happens around one statement: the moves of others before it, and its answer. */
  datatype Turn = Turn(others: seq<Move>, answer: Answer)

  class Store {
    var state: State

    constructor (state: State)
      ensures this.state == state
    {
      this.state := state;
    }

    /** One move, by anyone. */
    method Make(move: Move, ghost before: State, ghost made: seq<Move>) returns (ghost made': seq<Move>)
      requires Inv(state) && state == Run(before, made)
      modifies this
      ensures Inv(state) && state == Next(old(state), move) && state == Run(before, made') && made' == made + [move]
    {
      NextInv(state, move);
      made' := made + [move];
      assert made'[..|made'| - 1] == made;
      state := Next(state, move);
    }

    /** Others move, then transaction p takes one statement. */
    method Take(p: nat, turn: Turn, ghost before: State, ghost made: seq<Move>) returns (stage: Stage, ghost made': seq<Move>)
      requires Inv(state) && p < |state.txs| && state == Run(before, made)
      modifies this
      ensures Inv(state) && p < |state.txs| && state == Run(before, made') && made <= made'
      ensures state.txs[p].stage == stage && state.txs[p].input == old(state.txs[p].input)
      ensures Follows(old(state.txs[p].stage), turn.answer, stage)
      ensures stage == Finished && old(state.txs[p].stage) == Committing ==> Published(state, state.txs[p].input)
    {
      hide Inv, Run, Step;
      made' := made;
      for k := 0 to |turn.others|
        invariant Inv(state) && p < |state.txs| && state == Run(before, made') && made <= made'
        invariant state.txs[p] == old(state.txs[p])
      {
        if !(turn.others[k].Advance? && turn.others[k].p == p) {
          NextLeavesOthers(state, turn.others[k], p);
          made' := Make(turn.others[k], before, made');
        }
      }
      StepFollows(state, p, turn.answer);
      made' := Make(Advance(p, turn.answer), before, made');
      stage := state.txs[p].stage;
    }

    /** A statement that may have to wait for a lock; the request's deadline ends the wait. */
    method Wait(p: nat, env: nat -> Turn, t0: nat, patience: nat, ghost before: State, ghost made: seq<Move>)
      returns (stage: Stage, t: nat, ghost made': seq<Move>)
      requires Inv(state) && p < |state.txs| && state == Run(before, made)
      requires state.txs[p].stage.Begun? || state.txs[p].stage.Updating?
      modifies this
      ensures Inv(state) && p < |state.txs| && state == Run(before, made') && made <= made'
      ensures state.txs[p].stage == stage && state.txs[p].input == old(state.txs[p].input)
      ensures stage == Aborted || stage == (if old(state.txs[p].stage).Begun? then Updating else Inserting)
    {
      hide Inv, Run;
      var first := state.txs[p].stage;
      t := t0;
      stage, made' := Take(p, env(t), before, made);
      var waited := 0;
      while waited < patience && (stage.Begun? || (stage.Updating? && first.Updating?))
        invariant Inv(state) && p < |state.txs| && state == Run(before, made') && made <= made'
        invariant state.txs[p].stage == stage && state.txs[p].input == old(state.txs[p].input)
        invariant stage == first || stage == Aborted || stage == (if first.Begun? then Updating else Inserting)
      {
        t, waited := t + 1, waited + 1;
        stage, made' := Take(p, env(t), before, made');
      }
      if stage == first {
        stage, made' := Take(p, Turn([], Error), before, made');
      }
      t := t + 1;
    }

    /** CreateAppCertificate: true when the commit was confirmed. */
    method Create(input: Input, now: int, env: nat -> Turn, patience: nat) returns (ok: bool, ghost moves: seq<Move>)
      requires Inv(state)
      modifies this
      ensures Inv(state) && state == Run(old(state), moves) && moves != [] && moves[0] == Begin(input, now)
      ensures |old(state).txs| < |state.txs|
      ensures state.txs[|old(state).txs|].stage == if ok then Finished else Aborted
      ensures ok ==> Published(state, input)
    {
      hide Inv, Run;
      ghost var before := state;
      var p := |state.txs|;
      moves := [];
      RunNothing(state);
      BeginAppends(state, input, now);
      moves := Make(Begin(input, now), before, moves);
      var stage, t;
      // the account lock, for a user
      stage, t, moves := Wait(p, env, 0, patience, before, moves);
      if stage.Aborted? { return false, moves; }
      // revoke every active certificate of the subject
      stage, t, moves := Wait(p, env, t, patience, before, moves);
      if stage.Aborted? { return false, moves; }
      stage, moves := Take(p, env(t), before, moves);
      if stage.Aborted? { return false, moves; }
      stage, moves := Take(p, env(t + 1), before, moves);
      return stage.Finished?, moves;
    }
  }

  /** The newest row is the active certificate of the input, and, for a user, the only one. */
  ghost predicate Published(s: State, input: Input) {
    var subject := SubjectOf(input);
    && |s.rows| > 0
    && s.rows[|s.rows| - 1] == NewRow(input)
    && (subject.kind == USER ==> forall i :: 0 <= i < |s.rows| - 1 ==> !Active(s.rows[i], subject))
  }

  /** The stages a statement may lead to. */
  predicate Follows(stage: Stage, answer: Answer, stage': Stage) {
    match stage
    case Begun => stage' == Aborted || (answer.Ok? && (stage' == Begun || stage' == Updating))
    case Updating => stage' == Aborted || (answer.Ok? && (stage' == Updating || stage' == Inserting))
    case Inserting => stage' == Aborted || stage' == Committing
    case Committing => stage' == Aborted || stage' == Finished
    case _ => stage' == stage
  }

  lemma RunNothing(s: State)
    ensures Run(s, []) == s
  {}

  lemma BeginAppends(s: State, input: Input, now: int)
    ensures Next(s, Begin(input, now)).txs == s.txs + [Tx(input, now, Begun, map[], None)]
  {}

  lemma StepFollows(s: State, p: nat, answer: Answer)
    requires Inv(s) && p < |s.txs|
    ensures var s' := Next(s, Advance(p, answer));
            && |s'.txs| == |s.txs| && s'.txs[p].input == s.txs[p].input
            && Follows(s.txs[p].stage, answer, s'.txs[p].stage)
            && (s.txs[p].stage == Committing && s'.txs[p].stage == Finished ==> Published(s', s.txs[p].input))
  {
    assert TxInv(s, p);
    var s' := Next(s, Advance(p, answer));
    if s.txs[p].stage == Committing && s'.txs[p].stage == Finished {
      CommitRows(s, p, Finished);
    }
  }

  lemma NextLeavesOthers(s: State, m: Move, p: nat)
    requires p < |s.txs| && (m.Advance? ==> m.p != p)
    ensures var s' := Next(s, m); |s.txs| <= |s'.txs| && s'.txs[p] == s.txs[p]
  {}
}
