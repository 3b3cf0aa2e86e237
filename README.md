# Finite-state-machine engine with undo/redo history

A Dafny model of the `FSM` class of a small JavaScript library. The engine
holds a read-only configuration (an initial state and a table mapping each
state to its event-labelled transitions), a history of visited states and a
cursor into that history. The active state is the history entry under the
cursor. Transitions are applied explicitly (`changeState`) or looked up by
event (`trigger`). A successful transition drops every entry after the cursor
and appends the target. `undo` and `redo` move the cursor, `reset` moves it
to the first entry, and `clearHistory` collapses the history to the active
state. `getStates` lists the states of the table, or only those that have a
transition for a given event.

Layout:

- `fsm_config.dfy`, module `FsmConfig`: state and event names, the
  configuration, the two error kinds, and the specification of `getStates`
  (`StatesFor`), with lemmas on membership, order and duplicates.
- `fsm_history.dfy`, module `FsmHistory`: the (history, cursor) pair as a
  value `Machine` with its invariant `Valid` (history non-empty, cursor
  inside it). Every engine operation is a function on it. Lemmas cover the
  trigger/changeState equivalence, undo/redo inverses, and the round trip of
  N transitions, N undos and N redos.
- `fsm.dfy`, module `Engine`: the class `Fsm` with fields `history` and
  `cursor` and the constant `config`. Its methods change the fields in place.
  Each method states the new fields and ties them to the matching
  `FsmHistory` function. `GetStates` builds its answer with a loop. Two
  client methods replay concrete sessions.

Modelling decisions:

- JavaScript exceptions become results. The constructor's `!config` check is
  `Fsm.Create` taking an `Option<Config>` and returning `Err(InvalidConfig)`.
  `changeState` and `trigger` return `Fail(UnknownState)` instead of throwing.
- `config.states[state]` is always an object, so it is truthy exactly when
  the key is present; the model tests key presence.
- `trigger` hands the raw target to `changeState`, which judges it by key
  presence only, so an empty-string target is accepted when `""` is a table
  key. `trigger` fails with UnknownState in three cases: the current state is
  not a table key, it has no transition for the event, or the transition
  leads to a state that is not a table key.
- `getStates` tests `transitions[event]` for truthiness. A present but empty
  target does not count (`HasTransition`). A missing or empty `event` is
  falsy, so it returns every key (`NoEvent`).
- The key order of the table (`Object.keys`, `for...in`) is the field
  `stateOrder`. `WellFormed` says it lists each key of `states` once; only
  `StatesForExact` needs it. For a badly formed order the loop skips
  entries that are not keys, as `for...in` would never produce them.

## Model

| member | source | states |
|---|---|---|
| FsmHistory.Construct | src/fsm.js:6-13 | an absent config gives InvalidConfig; a present one gives a valid one-entry history at `initial` (not checked against the table) where undo and redo are both unavailable |
| Engine.Fsm.constructor | src/fsm.js:10-12 | the new object has `history == [initial]`, cursor 0, the given config, and satisfies the invariant |
| Engine.Fsm.Create | src/fsm.js:6-13 | fails with InvalidConfig exactly when the config is absent; otherwise a fresh valid engine with `history == [initial]` and cursor 0 |
| Engine.Fsm.GetState | src/fsm.js:19-21 | the active state is the history entry under the cursor |
| FsmHistory.ChangeState | src/fsm.js:27-34 | succeeds exactly when the target is a table key, else UnknownState; on success the result is valid, keeps the entries up to the old cursor, has length old cursor + 2, ends at the target, offers no redo, and one undo returns to the old active state |
| Engine.Fsm.ChangeState | src/fsm.js:27-34 | on success `history == old(history[..cursor+1]) + [state]` and the cursor advances by one; on failure UnknownState and both fields unchanged; the invariant is kept |
| FsmHistory.Trigger | src/fsm.js:40-42 | succeeds exactly when the current state has a transition for the event whose target is a table key; otherwise UnknownState; on success the result is exactly `history[..cursor+1] + [target]` with the cursor advanced by one, so redo is unavailable and one undo returns to the old active state |
| FsmHistory.TriggerIsChangeState | src/fsm.js:40-42 | trigger is changeState applied to the looked-up target, and fails with UnknownState when there is none |
| Engine.Fsm.Trigger | src/fsm.js:40-42 | passes exactly when the current state has a transition for the event to a table key; then `history == old(history[..cursor+1]) + [target]` and the cursor advances by one; a failure is UnknownState and changes nothing; outcome and fields agree with FsmHistory.Trigger |
| FsmHistory.Reset | src/fsm.js:47-49 | the history is kept and the first entry becomes active, from where no undo is possible |
| Engine.Fsm.Reset | src/fsm.js:47-49 | cursor becomes 0, history unchanged |
| FsmConfig.ListedMembers | src/fsm.js:61-66 | a state is in the filtered list exactly when it is in the key order, is a table key and has a truthy transition for the event |
| FsmConfig.ListedOrdered | src/fsm.js:61-66 | the filtered list is a subsequence of the key order and has no duplicates when the order has none |
| FsmConfig.StatesForExact | src/fsm.js:57-69 | for a well-formed table, getStates holds each table key at most once, in table order, and exactly the keys with a truthy transition for a truthy event (all keys for none) |
| Engine.Fsm.GetStates | src/fsm.js:57-69 | the loop returns StatesFor: the whole key order for a falsy event, otherwise exactly the ordered keys with a truthy transition; no state is changed |
| FsmHistory.Undo | src/fsm.js:76-83 | moves exactly when the cursor is not 0, then back by one; otherwise nothing changes; the history is never changed and the invariant is kept |
| Engine.Fsm.Undo | src/fsm.js:76-83 | returns false at cursor 0 and changes nothing, else returns true and decrements the cursor; history unchanged |
| FsmHistory.Redo | src/fsm.js:90-97 | moves exactly when the cursor is not on the last entry, then forward by one; otherwise nothing changes; history never changed, invariant kept |
| Engine.Fsm.Redo | src/fsm.js:90-97 | returns false on the last entry and changes nothing, else returns true and increments the cursor; history unchanged |
| FsmHistory.UndoThenRedo | src/fsm.js:76-97 | after a successful undo, redo succeeds and restores the exact previous history and cursor |
| FsmHistory.RedoThenUndo | src/fsm.js:76-97 | after a successful redo, undo succeeds and restores the exact previous history and cursor |
| FsmHistory.ClearHistory | src/fsm.js:102-105 | the result is a valid one-entry history whose active state is the old active state; undo and redo are unavailable |
| Engine.Fsm.ClearHistory | src/fsm.js:102-105 | `history == [old active state]` and cursor 0 |
| FsmHistory.ResetAfterClear | src/fsm.js:102-105 | after clearHistory the first entry is the state that was active then, so reset changes nothing |
| FsmHistory.ChangeAll | src/fsm.js:27-34 | a run of explicit transitions that stops at the first failure keeps the invariant |
| FsmHistory.ChangeAllAppends | src/fsm.js:29-31 | transitions to known targets replace everything after the cursor by the targets, in order, and leave the cursor on the last one |
| FsmHistory.UndoRun | src/fsm.js:76-83 | repeated undo yields one result and one active state per call and keeps the invariant |
| FsmHistory.RedoRun | src/fsm.js:90-97 | repeated redo yields one result and one active state per call and keeps the invariant |
| FsmHistory.UndoRunWalksBack | src/fsm.js:76-83 | up to `cursor` undo calls all return true, visit the earlier entries in reverse and leave the history unchanged |
| FsmHistory.RedoRunWalksForward | src/fsm.js:90-97 | as many redo calls as there are later entries all return true and visit those entries in order |
| FsmHistory.UndoRedoFromLast | src/fsm.js:76-97 | from the last entry: undo back to the first entry always succeeds, then fails; redo forward again succeeds each time, revisits the entries and ends where it started, then fails |
| FsmHistory.UndoRedoRoundTrip | src/fsm.js:27-97 | from a fresh engine, N successful transitions then N undos all succeed and reach `initial`, an extra undo fails and changes nothing; N redos then all succeed, revisit the targets in order, and an extra redo fails |
| Engine.PlayerSession | src/fsm.js:27-97 | on the idle/running/paused table: start, pause, undo, stop gives running, paused, running, idle; the undo succeeds and the redo afterwards fails because the paused entry was discarded |
| Engine.GoQueries | src/fsm.js:57-69 | on states A (go to B) and B (no transitions): getStates("go") is ["A"], getStates() and getStates("") are ["A", "B"] |

## Left out

- Missing transitions: in the source, `trigger` then calls `changeState(undefined)`, which looks up the key `"undefined"`. If the table has a state named `"undefined"`, that call succeeds and pushes `undefined` onto the history. The model always fails with UnknownState in this case.
- Keys inherited through the prototype chain (`"constructor"`, `"toString"`, ...) are not modelled. In the source they make the `config.states[state]` test of `changeState` truthy, so `changeState("toString")` succeeds there while the model fails it with UnknownState; they also make the `transitions[event]` lookup and the `getStates` filter see a truthy value. The model sees only the table's own keys.
- Integer-like keys, which `Object.keys` moves to the front in numeric order, are not modelled. The key order is given as `stateOrder`.
- A state entry that is `null` or has no `transitions` object is not modelled. Every `StateDef` carries a transitions map. In the source a `null` entry is falsy, so `changeState` to that state throws where the model succeeds (the model tests key presence); and `trigger` and `getStates` on such an entry throw a TypeError.
- JavaScript error kinds and `Error` object identity: a `TypeError` from looking up a missing current state is folded into UnknownState.
- A configuration shared with and mutated by other code, and concurrent calls: the configuration is a constant and every call runs alone.
- `module.exports` and the authorship comment (src/fsm.js:108-110): these have no behaviour.
