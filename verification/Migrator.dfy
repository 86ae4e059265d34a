/** Migrate as the loop one process runs against the shared database, while other processes take
    any statements of theirs in between. Every such execution is a run of the machine. */
module Migrator {
  import opened SchemaMigrations

  /** What happens around one statement: the moves of other processes before it, and its answer. */
  datatype Turn = Turn(others: seq<Move>, answer: Answer)

  class SchemaDatabase {
    const config: Config
    var state: State

    constructor (config: Config, state: State)
      ensures this.config == config && this.state == state
    {
      this.config, this.state := config, state;
    }

    /** Other processes move; `me` does not. */
    method Interleave(me: nat, others: seq<Move>, ghost initial: map<string, int>, ghost before: State, ghost made: seq<Move>)
      returns (ghost made': seq<Move>)
      requires Inv(config, initial, state) && me < |state.pcs| && state == Run(config, before, made)
      modifies this
      ensures Inv(config, initial, state) && me < |state.pcs| && state.pcs[me] == old(state.pcs[me])
      ensures state == Run(config, before, made')
    {
      hide Next;
      made' := made;
      for k := 0 to |others|
        invariant Inv(config, initial, state) && me < |state.pcs| && state.pcs[me] == old(state.pcs[me])
        invariant state == Run(config, before, made')
      {
        var move := others[k];
        if move.p != me {
          NextInv(config, initial, state, move.p, move.answer);
          NextLeavesOthers(config, state, move.p, move.answer, me);
          made' := made' + [move];
          assert made'[..|made'| - 1] + [move] == made';
          state := Next(config, state, move.p, move.answer);
        }
      }
    }

    /** One statement of `me`, after the others have moved. */
    method Take(me: nat, turn: Turn, ghost initial: map<string, int>, ghost before: State, ghost made: seq<Move>)
      returns (pc: Pc, ghost made': seq<Move>)
      requires Inv(config, initial, state) && me < |state.pcs| && state == Run(config, before, made)
      modifies this
      ensures Inv(config, initial, state) && me < |state.pcs| && state.pcs[me] == pc
      ensures state == Run(config, before, made')
      ensures Follows(config, old(state.pcs[me]), turn.answer, pc)
    {
      made' := Interleave(me, turn.others, initial, before, made);
      NextInv(config, initial, state, me, turn.answer);
      NextFollows(config, initial, state, me, turn.answer);
      ghost var move := Move(me, turn.answer);
      assert (made' + [move])[..|made'|] == made';
      made' := made' + [move];
      state := Next(config, state, me, turn.answer);
      pc := state.pcs[me];
    }

    /** Migrate, over the statements env(0), env(1), ...: true when every file was dealt with. */
    method Migrate(me: nat, env: nat -> Turn, ghost initial: map<string, int>) returns (ok: bool, ghost moves: seq<Move>)
      requires Inv(config, initial, state) && me < |state.pcs| && state.pcs[me] == Outer(0)
      modifies this
      ensures state == Run(config, old(state), moves) && Inv(config, initial, state)
      ensures me < |state.pcs| && state.pcs[me] == if ok then Done else Failed
      ensures ok ==> forall n :: n in config.files ==> n in state.marks
    {
      hide Inv, Run;
      ghost var before := state;
      moves := [];
      RunNothing(config, state);
      var i, t := 0, 0;
      while i < |config.files|
        invariant i <= |config.files| && state == Run(config, before, moves) && Inv(config, initial, state)
        invariant me < |state.pcs| && state.pcs[me] == Outer(i)
      {
        var pc;
        // the unlocked read of the marker
        pc, moves := Take(me, env(t), initial, before, moves);
        t := t + 1;
        if pc.Begun? {
          pc, t, moves := Transaction(me, i, env, t, initial, before, moves);
        }
        if pc.Failed? { return false, moves; }
        i := i + 1;
      }
      var pc;
      pc, moves := Take(me, Turn([], Ok(0)), initial, before, moves);
      DoneMeansMarked(config, initial, state, me);
      return true, moves;
    }

    /** The transaction for one file: lock, recheck, adopt or execute and mark, commit. */
    method Transaction(me: nat, ghost i: nat, env: nat -> Turn, t0: nat,
                       ghost initial: map<string, int>, ghost before: State, ghost made: seq<Move>)
      returns (pc: Pc, t: nat, ghost moves: seq<Move>)
      requires Inv(config, initial, state) && me < |state.pcs| && state == Run(config, before, made)
      requires state.pcs[me] == Begun(i)
      modifies this
      ensures Inv(config, initial, state) && me < |state.pcs| && state.pcs[me] == pc
      ensures state == Run(config, before, moves)
      ensures pc == Failed || pc == Outer(i + 1)
    {
      hide Inv, Run;
      t := t0;
      pc, moves := Lock(me, env(t), initial, before, made);
      t := t + 1;
      if pc.Failed? { return; }
      // the recheck under the lock
      pc, moves := Take(me, env(t), initial, before, moves);
      t := t + 1;
      if pc.Failed? { return; }
      if pc.Absent? {
        // historical names
        pc, moves := Take(me, env(t), initial, before, moves);
        t := t + 1;
        if pc.Failed? { return; }
        if pc.Fresh? {
          // the body, then the marker
          pc, moves := Take(me, env(t), initial, before, moves);
          t := t + 1;
          if pc.Failed? { return; }
          pc, moves := Take(me, env(t), initial, before, moves);
          t := t + 1;
          if pc.Failed? { return; }
        }
      }
      // commit
      pc, moves := Take(me, env(t), initial, before, moves);
      t := t + 1;
    }

    /** The advisory lock: taken, or given up when it is still held after the lock timeout. */
    method Lock(me: nat, turn: Turn, ghost initial: map<string, int>, ghost before: State, ghost made: seq<Move>)
      returns (pc: Pc, ghost made': seq<Move>)
      requires Inv(config, initial, state) && me < |state.pcs| && state == Run(config, before, made)
      requires state.pcs[me].Begun?
      modifies this
      ensures Inv(config, initial, state) && me < |state.pcs| && state.pcs[me] == pc
      ensures state == Run(config, before, made')
      ensures pc == Failed || pc == Locked(old(state.pcs[me]).i)
    {
      pc, made' := Take(me, turn, initial, before, made);
      if pc.Begun? {
        pc, made' := Take(me, Turn([], Error), initial, before, made');
      }
    }
  }

  lemma RunNothing(c: Config, s: State)
    ensures Run(c, s, []) == s
  {}

  lemma DoneMeansMarked(c: Config, initial: map<string, int>, s: State, p: nat)
    requires Inv(c, initial, s) && p < |s.pcs| && s.pcs[p] == Done
    ensures forall n :: n in c.files ==> n in s.marks
  {
    assert PcInv(c, s.marks, s.pcs[p]);
  }

  /** The program counters a statement may lead to. */
  ghost predicate Follows(c: Config, pc: Pc, answer: Answer, pc': Pc) {
    match pc
    case Outer(i) => if i >= |c.files| then pc' == Done else pc' == Failed || pc' == Outer(i + 1) || pc' == Begun(i)
    case Begun(i) => pc' == Failed || (answer.Ok? && (pc' == pc || pc' == Locked(i)))
    case Locked(i) => pc' == Failed || pc' == Present(i) || pc' == Absent(i)
    case Present(i) => pc' == Failed || pc' == Outer(i + 1)
    case Absent(i) => pc' == Failed || pc' == Fresh(i) || (pc'.Pending? && pc'.i == i)
    case Fresh(i) => pc' == Failed || pc' == Executed(i)
    case Executed(i) => pc' == Failed || (pc'.Pending? && pc'.i == i)
    case Pending(i, stamp, adopts) => pc' == Failed || pc' == Outer(i + 1)
    case Done => pc' == pc
    case Failed => pc' == pc
  }

  lemma NextFollows(c: Config, initial: map<string, int>, s: State, p: nat, answer: Answer)
    requires Inv(c, initial, s) && p < |s.pcs|
    ensures var s' := Next(c, s, p, answer); |s'.pcs| == |s.pcs| && Follows(c, s.pcs[p], answer, s'.pcs[p])
  {
    hide Aliases, Oldest;
    assert PcInv(c, s.marks, s.pcs[p]);
  }

  lemma NextLeavesOthers(c: Config, s: State, p: nat, answer: Answer, q: nat)
    requires q < |s.pcs| && p != q
    ensures var s' := Next(c, s, p, answer); |s'.pcs| == |s.pcs| && s'.pcs[q] == s.pcs[q]
  {
    hide Aliases, Oldest;
  }
}
