/**
 The read-only configuration of a finite-state machine: an initial state and a
 transition table that maps each state to its event-labelled transitions. It
 also holds the specification of the table query `getStates`.
 */
module FsmConfig {

  type StateId = string
  type EventId = string

  datatype Option<T> = None | Some(value: T)

  /** The two ways an engine call can fail. */
  datatype Error = InvalidConfig | UnknownState

  datatype Result<T> = Ok(value: T) | Err(error: Error)

  /** What a call that returns nothing on success reports. */
  datatype Outcome = Pass | Fail(error: Error)

  /** One entry of the table: where each event leads from this state. */
  datatype StateDef = StateDef(transitions: map<EventId, StateId>)

  /**
   `stateOrder` is the enumeration order of the keys of `states`
   (the order `Object.keys` and `for...in` visit them in).
   */
  datatype Config = Config(initial: StateId, stateOrder: seq<StateId>, states: map<StateId, StateDef>)

  predicate NoDuplicates(s: seq<StateId>) {
    forall i, j :: 0 <= i < j < |s| ==> s[i] != s[j]
  }

  /** The key order lists every key of the table exactly once. */
  ghost predicate WellFormed(cfg: Config) {
    NoDuplicates(cfg.stateOrder) &&
    (forall s :: s in cfg.stateOrder <==> s in cfg.states)
  }

  /**
   The target of `event` from `state`, if the table has one. Looking up the
   transitions of a state that is not in the table fails as well.
   */
  function Resolve(cfg: Config, state: StateId, event: EventId): Option<StateId>
  {
    if state in cfg.states && event in cfg.states[state].transitions
    then Some(cfg.states[state].transitions[event])
    else None
  }

  /** A JavaScript string is truthy unless it is empty. */
  predicate Truthy(s: string) {
    s != ""
  }

  /** `states[state].transitions[event]` exists and is truthy. */
  predicate HasTransition(cfg: Config, state: StateId, event: EventId) {
    Resolve(cfg, state, event).Some? && Truthy(Resolve(cfg, state, event).value)
  }

  /** Missing and empty events both make `!event` true. */
  predicate NoEvent(event: Option<EventId>) {
    event.None? || !Truthy(event.value)
  }

  /** The states of `order` that are table keys with a truthy transition for `event`, in order. */
  function Listed(cfg: Config, order: seq<StateId>, event: EventId): seq<StateId>
  {
    if order == [] then []
    else
      var last := order[|order| - 1];
      Listed(cfg, order[..|order| - 1], event) + (if last in cfg.states && HasTransition(cfg, last, event) then [last] else [])
  }

  /** What `getStates(event)` returns. */
  function StatesFor(cfg: Config, event: Option<EventId>): seq<StateId>
  {
    if NoEvent(event) then cfg.stateOrder else Listed(cfg, cfg.stateOrder, event.value)
  }

  /** `a` is `b` with some elements left out, the rest in their order. */
  predicate Subsequence(a: seq<StateId>, b: seq<StateId>)
    decreases |b|
  {
    a == [] ||
    (b != [] &&
     ((a[|a| - 1] == b[|b| - 1] && Subsequence(a[..|a| - 1], b[..|b| - 1])) ||
      Subsequence(a, b[..|b| - 1])))
  }

  /** Exactly the listed states with the transition appear in the result. */
  lemma {:induction false} ListedMembers(cfg: Config, order: seq<StateId>, event: EventId, x: StateId)
    ensures x in Listed(cfg, order, event) <==> x in order && x in cfg.states && HasTransition(cfg, x, event)
    decreases |order|
  {
    if order != [] {
      var init := order[..|order| - 1];
      ListedMembers(cfg, init, event, x);
      assert order == init + [order[|order| - 1]];
    }
  }

  /** The result keeps the table order and repeats no state the order does not repeat. */
  lemma {:induction false} ListedOrdered(cfg: Config, order: seq<StateId>, event: EventId)
    ensures Subsequence(Listed(cfg, order, event), order)
    ensures NoDuplicates(order) ==> NoDuplicates(Listed(cfg, order, event))
    decreases |order|
  {
    if order != [] {
      var init := order[..|order| - 1];
      var last := order[|order| - 1];
      var r0 := Listed(cfg, init, event);
      ListedOrdered(cfg, init, event);
      assert order[..|order| - 1] == init;
      if last in cfg.states && HasTransition(cfg, last, event) {
        var r := r0 + [last];
        assert Listed(cfg, order, event) == r;
        assert r[..|r| - 1] == r0 && r[|r| - 1] == order[|order| - 1];
        assert Subsequence(r, order);
        if NoDuplicates(order) {
          assert last !in init by {
            forall i | 0 <= i < |init| ensures init[i] != last {
              assert init[i] == order[i];
            }
          }
          ListedMembers(cfg, init, event, last);
        }
      } else {
        assert Listed(cfg, order, event) == r0;
        assert Subsequence(r0, order);
      }
    }
  }

  /**
   With a well-formed table, `getStates(event)` for a truthy event holds
   exactly the table keys that have a truthy transition for it, each once
   and in table order; with no event it holds exactly the keys.
   */
  lemma StatesForExact(cfg: Config, event: Option<EventId>)
    requires WellFormed(cfg)
    ensures NoDuplicates(StatesFor(cfg, event))
    ensures Subsequence(StatesFor(cfg, event), cfg.stateOrder)
    ensures forall x :: x in StatesFor(cfg, event) <==> x in cfg.states && (NoEvent(event) || HasTransition(cfg, x, event.value))
  {
    if NoEvent(event) {
      SubsequenceRefl(cfg.stateOrder);
    } else {
      ListedOrdered(cfg, cfg.stateOrder, event.value);
      forall x ensures x in StatesFor(cfg, event) <==> x in cfg.states && HasTransition(cfg, x, event.value) {
        ListedMembers(cfg, cfg.stateOrder, event.value, x);
      }
    }
  }

  /** Every sequence is a subsequence of itself (a proof step for the unfiltered answer). */
  lemma {:induction false} SubsequenceRefl(s: seq<StateId>)
    ensures Subsequence(s, s)
    decreases |s|
  {
    if s != [] {
      SubsequenceRefl(s[..|s| - 1]);
    }
  }
}
