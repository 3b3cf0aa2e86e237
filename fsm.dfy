/**
 The engine itself: an object that owns a configuration, a history of visited
 states and a cursor into it, and changes the last two in place. Each method
 is specified by the matching function of FsmHistory on the (history, cursor)
 pair, and also states the new fields outright.
 */
module Engine {
  import opened FsmConfig
  import opened FsmHistory

  /** `after` and the reported outcome are what the value-level result `res` prescribes. */
  predicate Settles(res: Result<Machine>, before: Machine, after: Machine, r: Outcome) {
    match res
    case Ok(m) => r == Pass && after == m
    case Err(e) => r == Fail(e) && after == before
  }

  class Fsm {
    const config: Config
    var history: seq<StateId>
    var cursor: nat

    /** The (history, cursor) pair as a value. */
    function Snapshot(): Machine
      reads this
    {
      Machine(history, cursor)
    }

    ghost predicate Valid()
      reads this
    {
      FsmHistory.Valid(Snapshot())
    }

    constructor (config: Config)
      ensures this.config == config
      ensures history == [config.initial] && cursor == 0
      ensures Valid() && Snapshot() == Construct(Some(config)).value
    {
      this.config := config;
      history := [config.initial];
      cursor := 0;
    }

    /** Construction from a possibly absent configuration; an absent one is refused. */
    static method Create(config: Option<Config>) returns (r: Result<Fsm>)
      ensures r.Err? <==> config.None?
      ensures r.Err? ==> r.error == InvalidConfig
      ensures r.Ok? ==> fresh(r.value) && r.value.Valid() && r.value.config == config.value
      ensures r.Ok? ==> r.value.history == [config.value.initial] && r.value.cursor == 0
    {
      if config.None? {
        return Err(InvalidConfig);
      }
      var f := new Fsm(config.value);
      r := Ok(f);
    }

    /** The active state: the history entry under the cursor. */
    function GetState(): (s: StateId)
      reads this
      requires Valid()
      ensures s == Current(Snapshot())
    {
      history[cursor]
    }

    method ChangeState(state: StateId) returns (r: Outcome)
      requires Valid()
      modifies this
      ensures Valid()
      ensures r.Pass? <==> state in config.states
      ensures r.Pass? ==> history == old(history[..cursor + 1]) + [state] && cursor == old(cursor) + 1
      ensures r.Fail? ==> r == Fail(UnknownState) && history == old(history) && cursor == old(cursor)
      ensures Settles(FsmHistory.ChangeState(config, old(Snapshot()), state), old(Snapshot()), Snapshot(), r)
    {
      if state in config.states {
        history := history[..cursor + 1];
        history := history + [state];
        cursor := cursor + 1;
        r := Pass;
      } else {
        r := Fail(UnknownState);
      }
    }

    method Trigger(event: EventId) returns (r: Outcome)
      requires Valid()
      modifies this
      ensures Valid()
      ensures r.Pass? <==> old(Resolve(config, GetState(), event)).Some? && old(Resolve(config, GetState(), event)).value in config.states
      ensures r.Pass? ==> history == old(history[..cursor + 1]) + [config.states[old(GetState())].transitions[event]] && cursor == old(cursor) + 1
      ensures r.Fail? ==> r == Fail(UnknownState) && history == old(history) && cursor == old(cursor)
      ensures Settles(FsmHistory.Trigger(config, old(Snapshot()), event), old(Snapshot()), Snapshot(), r)
    {
      match Resolve(config, GetState(), event)
      case None =>
        r := Fail(UnknownState);
      case Some(target) =>
        r := ChangeState(target);
    }

    method Reset()
      requires Valid()
      modifies this
      ensures Valid()
      ensures history == old(history) && cursor == 0
      ensures Snapshot() == FsmHistory.Reset(old(Snapshot()))
    {
      cursor := 0;
    }

    /**
     The state names of the table, or only those with a truthy transition for
     a truthy `event`, in table order. Changes nothing.
     */
    method GetStates(event: Option<EventId>) returns (r: seq<StateId>)
      ensures r == StatesFor(config, event)
      ensures Subsequence(r, config.stateOrder)
      ensures forall x :: x in r <==> x in config.stateOrder && (NoEvent(event) || (x in config.states && HasTransition(config, x, event.value)))
    {
      if NoEvent(event) {
        SubsequenceRefl(config.stateOrder);
        return config.stateOrder;
      }
      var e := event.value;
      var order := config.stateOrder;
      r := [];
      var i := 0;
      while i < |order|
        invariant 0 <= i <= |order|
        invariant r == Listed(config, order[..i], e)
      {
        var state := order[i];
        assert order[..i + 1][..i] == order[..i];
        if state in config.states && HasTransition(config, state, e) {
          r := r + [state];
        }
        i := i + 1;
      }
      assert order[..i] == order;
      ListedOrdered(config, order, e);
      forall x ensures x in r <==> x in order && x in config.states && HasTransition(config, x, e) {
        ListedMembers(config, order, e, x);
      }
    }

    method Undo() returns (moved: bool)
      requires Valid()
      modifies this
      ensures Valid()
      ensures moved <==> old(cursor) != 0
      ensures history == old(history)
      ensures cursor == if moved then old(cursor) - 1 else old(cursor)
      ensures Nav(moved, Snapshot()) == FsmHistory.Undo(old(Snapshot()))
    {
      if cursor == 0 {
        return false;
      }
      cursor := cursor - 1;
      moved := true;
    }

    method Redo() returns (moved: bool)
      requires Valid()
      modifies this
      ensures Valid()
      ensures moved <==> old(cursor) != |old(history)| - 1
      ensures history == old(history)
      ensures cursor == if moved then old(cursor) + 1 else old(cursor)
      ensures Nav(moved, Snapshot()) == FsmHistory.Redo(old(Snapshot()))
    {
      if cursor == |history| - 1 {
        return false;
      }
      cursor := cursor + 1;
      moved := true;
    }

    method ClearHistory()
      requires Valid()
      modifies this
      ensures Valid()
      ensures history == [old(GetState())] && cursor == 0
      ensures Snapshot() == FsmHistory.ClearHistory(old(Snapshot()))
    {
      history := [GetState()];
      cursor := 0;
    }
  }

  /** The three-state machine idle, running, paused. */
  function PlayerConfig(): Config {
    Config(
      "idle",
      ["idle", "running", "paused"],
      map[
        "idle" := StateDef(map["start" := "running"]),
        "running" := StateDef(map["stop" := "idle", "pause" := "paused"]),
        "paused" := StateDef(map["resume" := "running"])
      ])
  }

  /**
   A session on PlayerConfig: start, pause, undo, stop. The stop after the
   undo discards the paused entry, so redo is then unavailable.
   */
  method PlayerSession() returns (states: seq<StateId>, undone: bool, redone: bool)
    ensures states == ["running", "paused", "running", "idle"]
    ensures undone && !redone
  {
    var created := Fsm.Create(Some(PlayerConfig()));
    var f := created.value;
    var r := f.Trigger("start");
    var s1 := f.GetState();
    r := f.Trigger("pause");
    var s2 := f.GetState();
    undone := f.Undo();
    var s3 := f.GetState();
    r := f.Trigger("stop");
    var s4 := f.GetState();
    redone := f.Redo();
    states := [s1, s2, s3, s4];
  }

  /** Two states: A leads to B on "go", B has no transitions. */
  function GoConfig(): Config {
    Config("A", ["A", "B"], map["A" := StateDef(map["go" := "B"]), "B" := StateDef(map[])])
  }

  method GoQueries() returns (withGo: seq<StateId>, all: seq<StateId>, withEmpty: seq<StateId>)
    ensures withGo == ["A"] && all == ["A", "B"] && withEmpty == all
  {
    var cfg := GoConfig();
    var f := new Fsm(cfg);
    withGo := f.GetStates(Some("go"));
    assert cfg.stateOrder[..1] == ["A"] && cfg.stateOrder[..1][..0] == [];
    assert HasTransition(cfg, "A", "go") && !HasTransition(cfg, "B", "go");
    assert Listed(cfg, cfg.stateOrder, "go") == Listed(cfg, ["A"], "go") == ["A"];
    all := f.GetStates(None);
    withEmpty := f.GetStates(Some(""));
  }
}
