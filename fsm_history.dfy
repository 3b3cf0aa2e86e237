/**
 The engine's bookkeeping as a value: the sequence of visited states and the
 cursor that points at the current one. Each operation of the engine is a
 function from the old value to the new one; the lemmas below relate them.
 */
module FsmHistory {
  import opened FsmConfig

  datatype Machine = Machine(history: seq<StateId>, cursor: nat)

  /** The result of an undo or redo: whether the cursor moved, and the new value. */
  datatype Nav = Nav(moved: bool, next: Machine)

  /** The history is never empty and the cursor always points into it. */
  predicate Valid(m: Machine) {
    |m.history| >= 1 && m.cursor < |m.history|
  }

  /** The active state. */
  function Current(m: Machine): StateId
    requires Valid(m)
  {
    m.history[m.cursor]
  }

  /**
   Construction: an absent configuration is refused; any present one starts a
   one-entry history at its initial state, whether or not that state is in
   the table. Nothing can be undone or redone yet.
   */
  function Construct(config: Option<Config>): (r: Result<Machine>)
    ensures r.Err? <==> config.None?
    ensures r.Err? ==> r.error == InvalidConfig
    ensures r.Ok? ==> Valid(r.value) && Current(r.value) == config.value.initial && |r.value.history| == 1
    ensures r.Ok? ==> !Undo(r.value).moved && !Redo(r.value).moved
  {
    if config.None? then Err(InvalidConfig) else Ok(Machine([config.value.initial], 0))
  }

  /**
   An explicit transition. A target that is not a table key fails with
   UnknownState. Otherwise the entries after the cursor are dropped and the
   target is appended: the entries up to the cursor are kept, the target is
   current, nothing can be redone, and one undo returns to the old state.
   */
  function ChangeState(cfg: Config, m: Machine, target: StateId): (r: Result<Machine>)
    requires Valid(m)
    ensures r.Ok? <==> target in cfg.states
    ensures r.Err? ==> r.error == UnknownState
    ensures r.Ok? ==> Valid(r.value) && Current(r.value) == target
    ensures r.Ok? ==> |r.value.history| == m.cursor + 2 && r.value.history[..m.cursor + 1] == m.history[..m.cursor + 1]
    ensures r.Ok? ==> !Redo(r.value).moved
    ensures r.Ok? ==> Undo(r.value).moved && Current(Undo(r.value).next) == Current(m)
  {
    if target in cfg.states then
      Ok(Machine(m.history[..m.cursor + 1] + [target], m.cursor + 1))
    else
      Err(UnknownState)
  }

  /**
   An event-driven transition: the target is looked up from the current
   state; a missing current state or a missing transition fails with
   UnknownState, the same error as an unknown explicit target.
   */
  function Trigger(cfg: Config, m: Machine, event: EventId): (r: Result<Machine>)
    requires Valid(m)
    ensures r.Ok? <==> Resolve(cfg, Current(m), event).Some? && Resolve(cfg, Current(m), event).value in cfg.states
    ensures r.Err? ==> r.error == UnknownState
    ensures r.Ok? ==> Valid(r.value) && Current(r.value) == cfg.states[Current(m)].transitions[event]
    ensures r.Ok? ==> |r.value.history| == m.cursor + 2 && r.value.history[..m.cursor + 1] == m.history[..m.cursor + 1]
    ensures r.Ok? ==> r.value == Machine(m.history[..m.cursor + 1] + [cfg.states[Current(m)].transitions[event]], m.cursor + 1)
    ensures r.Ok? ==> !Redo(r.value).moved && Undo(r.value).moved && Current(Undo(r.value).next) == Current(m)
  {
    match Resolve(cfg, Current(m), event)
    case None => Err(UnknownState)
    case Some(target) => ChangeState(cfg, m, target)
  }

  /** Back to the first history entry; the history itself is kept. */
  function Reset(m: Machine): (r: Machine)
    requires Valid(m)
    ensures Valid(r) && r.history == m.history && Current(r) == m.history[0]
    ensures !Undo(r).moved
  {
    m.(cursor := 0)
  }

  /**
   One step back. Unavailable at the first entry, where nothing changes;
   otherwise the cursor moves back one place and the history is kept, so the
   entries after the cursor can still be redone.
   */
  function Undo(m: Machine): (r: Nav)
    requires Valid(m)
    ensures Valid(r.next) && r.next.history == m.history
    ensures r.moved <==> m.cursor > 0
    ensures !r.moved ==> r.next == m
    ensures r.moved ==> r.next.cursor + 1 == m.cursor
  {
    if m.cursor == 0 then Nav(false, m) else Nav(true, m.(cursor := m.cursor - 1))
  }

  /**
   One step forward. Unavailable at the last entry, where nothing changes;
   otherwise the cursor moves forward one place and the history is kept.
   */
  function Redo(m: Machine): (r: Nav)
    requires Valid(m)
    ensures Valid(r.next) && r.next.history == m.history
    ensures r.moved <==> m.cursor < |m.history| - 1
    ensures !r.moved ==> r.next == m
    ensures r.moved ==> r.next.cursor == m.cursor + 1
  {
    if m.cursor == |m.history| - 1 then Nav(false, m) else Nav(true, m.(cursor := m.cursor + 1))
  }

  /**
   Forget all undo and redo information but keep the active state: the
   history becomes that one state.
   */
  function ClearHistory(m: Machine): (r: Machine)
    requires Valid(m)
    ensures Valid(r) && |r.history| == 1 && Current(r) == Current(m)
    ensures !Undo(r).moved && !Redo(r).moved
  {
    Machine([Current(m)], 0)
  }

  /** An event-driven transition is the explicit transition to the looked-up target. */
  lemma TriggerIsChangeState(cfg: Config, m: Machine, event: EventId)
    requires Valid(m)
    ensures Resolve(cfg, Current(m), event).None? ==> Trigger(cfg, m, event) == Err(UnknownState)
    ensures Resolve(cfg, Current(m), event).Some? ==>
      Trigger(cfg, m, event) == ChangeState(cfg, m, Resolve(cfg, Current(m), event).value)
  {
  }

  /** A successful undo is reversed by a redo. */
  lemma UndoThenRedo(m: Machine)
    requires Valid(m) && Undo(m).moved
    ensures Redo(Undo(m).next) == Nav(true, m)
  {
  }

  /** A successful redo is reversed by an undo. */
  lemma RedoThenUndo(m: Machine)
    requires Valid(m) && Redo(m).moved
    ensures Undo(Redo(m).next) == Nav(true, m)
  {
  }

  /** After clearing, a reset changes nothing: the first entry is the state that was active. */
  lemma ResetAfterClear(m: Machine)
    requires Valid(m)
    ensures Reset(ClearHistory(m)) == ClearHistory(m)
    ensures Current(Reset(ClearHistory(m))) == Current(m)
  {
  }

  /** Explicit transitions to each of `targets` in turn; the first failure stops the run. */
  function ChangeAll(cfg: Config, m: Machine, targets: seq<StateId>): (r: Result<Machine>)
    requires Valid(m)
    ensures r.Ok? ==> Valid(r.value)
    decreases |targets|
  {
    if targets == [] then Ok(m)
    else
      match ChangeState(cfg, m, targets[0])
      case Err(e) => Err(e)
      case Ok(m') => ChangeAll(cfg, m', targets[1..])
  }

  /** The trace of `n` repeated undo or redo calls. */
  datatype Run = Run(moves: seq<bool>, seen: seq<StateId>, end: Machine)

  /** Call undo `n` times, recording each result and the state it left active. */
  function UndoRun(m: Machine, n: nat): (r: Run)
    requires Valid(m)
    ensures Valid(r.end) && |r.moves| == n && |r.seen| == n
    decreases n
  {
    if n == 0 then Run([], [], m)
    else
      var step := Undo(m);
      var rest := UndoRun(step.next, n - 1);
      Run([step.moved] + rest.moves, [Current(step.next)] + rest.seen, rest.end)
  }

  /** Call redo `n` times, recording each result and the state it left active. */
  function RedoRun(m: Machine, n: nat): (r: Run)
    requires Valid(m)
    ensures Valid(r.end) && |r.moves| == n && |r.seen| == n
    decreases n
  {
    if n == 0 then Run([], [], m)
    else
      var step := Redo(m);
      var rest := RedoRun(step.next, n - 1);
      Run([step.moved] + rest.moves, [Current(step.next)] + rest.seen, rest.end)
  }

  predicate AllTrue(s: seq<bool>) {
    forall i :: 0 <= i < |s| ==> s[i]
  }

  /**
   Transitions to known states, one after the other, replace everything after
   the cursor by the targets in order and leave the cursor on the last one.
   */
  lemma {:induction false} ChangeAllAppends(cfg: Config, m: Machine, targets: seq<StateId>)
    requires Valid(m)
    requires forall i :: 0 <= i < |targets| ==> targets[i] in cfg.states
    ensures ChangeAll(cfg, m, targets).Ok?
    ensures targets == [] ==> ChangeAll(cfg, m, targets).value == m
    ensures targets != [] ==> ChangeAll(cfg, m, targets).value == Machine(m.history[..m.cursor + 1] + targets, m.cursor + |targets|)
    decreases |targets|
  {
    if targets != [] {
      var m' := ChangeState(cfg, m, targets[0]).value;
      assert m' == Machine(m.history[..m.cursor + 1] + [targets[0]], m.cursor + 1);
      ChangeAllAppends(cfg, m', targets[1..]);
      assert ChangeAll(cfg, m, targets) == ChangeAll(cfg, m', targets[1..]);
      if targets[1..] != [] {
        assert m'.history[..m'.cursor + 1] == m'.history;
        assert m'.history + targets[1..] == m.history[..m.cursor + 1] + targets;
      }
    }
  }

  /** Up to `cursor` undo calls all succeed and walk the history backwards. */
  lemma {:induction false} UndoRunWalksBack(m: Machine, n: nat)
    requires Valid(m) && n <= m.cursor
    ensures AllTrue(UndoRun(m, n).moves)
    ensures UndoRun(m, n).end == Machine(m.history, m.cursor - n)
    ensures forall i :: 0 <= i < n ==> UndoRun(m, n).seen[i] == m.history[m.cursor - 1 - i]
    decreases n
  {
    if n > 0 {
      var next := Undo(m).next;
      UndoRunWalksBack(next, n - 1);
      var r := UndoRun(m, n);
      var rest := UndoRun(next, n - 1);
      assert r.moves == [true] + rest.moves;
      assert r.seen == [m.history[m.cursor - 1]] + rest.seen;
      forall i | 0 <= i < n ensures r.seen[i] == m.history[m.cursor - 1 - i] {
        if i > 0 {
          assert r.seen[i] == rest.seen[i - 1];
        }
      }
    }
  }

  /** Up to `|history| - 1 - cursor` redo calls all succeed and revisit the history in order. */
  lemma {:induction false} RedoRunWalksForward(m: Machine, n: nat)
    requires Valid(m) && m.cursor + n < |m.history|
    ensures AllTrue(RedoRun(m, n).moves)
    ensures RedoRun(m, n).end == Machine(m.history, m.cursor + n)
    ensures RedoRun(m, n).seen == m.history[m.cursor + 1..m.cursor + 1 + n]
    decreases n
  {
    if n > 0 {
      var next := Redo(m).next;
      RedoRunWalksForward(next, n - 1);
      var r := RedoRun(m, n);
      var rest := RedoRun(next, n - 1);
      assert r.moves == [true] + rest.moves;
      assert r.seen == [m.history[m.cursor + 1]] + m.history[m.cursor + 2..m.cursor + 1 + n];
    }
  }

  /**
   From the last entry of a history, `cursor` undo calls all succeed and end at
   the first entry, where undo fails; as many redo calls then all succeed,
   revisit the later entries in order and end where they started, and one more
   redo fails.
   */
  lemma UndoRedoFromLast(m: Machine)
    requires Valid(m) && m.cursor == |m.history| - 1
    ensures var back := UndoRun(m, m.cursor);
            AllTrue(back.moves) && back.end == Machine(m.history, 0) &&
            Undo(back.end) == Nav(false, back.end) &&
            var forth := RedoRun(back.end, m.cursor);
            AllTrue(forth.moves) && forth.seen == m.history[1..] && forth.end == m &&
            !Redo(forth.end).moved
  {
    UndoRunWalksBack(m, m.cursor);
    var back := UndoRun(m, m.cursor);
    RedoRunWalksForward(back.end, m.cursor);
  }

  /**
   The undo/redo round trip from a fresh machine: after `N` successful
   transitions, `N` undo calls all succeed and end at the initial state, one
   more fails and changes nothing; then `N` redo calls all succeed, revisit
   the targets in their order and end where the transitions ended, and one
   more redo fails.
   */
  lemma UndoRedoRoundTrip(cfg: Config, targets: seq<StateId>)
    requires forall i :: 0 <= i < |targets| ==> targets[i] in cfg.states
    ensures var start := Construct(Some(cfg)).value;
            var done := ChangeAll(cfg, start, targets);
            done.Ok? && done.value == Machine([cfg.initial] + targets, |targets|) &&
            var back := UndoRun(done.value, |targets|);
            AllTrue(back.moves) && Current(back.end) == cfg.initial &&
            Undo(back.end) == Nav(false, back.end) &&
            var forth := RedoRun(back.end, |targets|);
            AllTrue(forth.moves) && forth.seen == targets && forth.end == done.value &&
            !Redo(forth.end).moved
  {
    var start := Construct(Some(cfg)).value;
    ChangeAllAppends(cfg, start, targets);
    assert start.history[..start.cursor + 1] == [cfg.initial];
    var done := ChangeAll(cfg, start, targets).value;
    assert done == Machine([cfg.initial] + targets, |targets|);
    UndoRedoFromLast(done);
    assert done.history[1..] == targets;
  }
}
