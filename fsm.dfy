/** The per-user dialogue state every wizard shares (aiogram's `FSMContext`
    with its in-memory storage): one current state per user and one data
    dictionary per user that `update_data` writes into. `clear()` drops both. */
module Fsm {
  import opened Base

  /** The states of `SaveEventStates`, `AssignmentStates` and `RecognitionStates`. */
  datatype State =
    | SaveType | SaveDate | SaveTime | SaveZoom | SaveMc | SavePresenter | SaveImpacts
    | AssignEvent | AssignMc | AssignPresenter | AssignImpact
    | RecUpline | RecDownline | RecCategory | RecMonth | RecRemarks

  class Conversation {
    var states: map<UserId, State>
    var data: map<UserId, map<string, string>>

    constructor ()
      ensures states == map[] && data == map[]
    {
      states := map[];
      data := map[];
    }

    /** `await state.get_state()`: None when the user has no state. */
    function StateOf(u: UserId): (s: Option<State>)
      reads this
      ensures s.Some? <==> u in states
    {
      if u in states then Some(states[u]) else None
    }

    /** `await state.get_data()`: empty when nothing was stored. */
    function DataOf(u: UserId): map<string, string>
      reads this
    {
      if u in data then data[u] else map[]
    }

    /** `await state.set_state(s)`: the data is kept. */
    method SetState(u: UserId, s: State)
      modifies this
      ensures states == old(states)[u := s] && data == old(data)
    {
      states := states[u := s];
    }

    /** `await state.clear()`: the user's state and data are both dropped. */
    method Clear(u: UserId)
      modifies this
      ensures states == old(states) - {u} && data == old(data) - {u}
      ensures StateOf(u) == None && DataOf(u) == map[]
    {
      states := states - {u};
      data := data - {u};
    }

    /** `await state.update_data(key=value)`: one key set, the others kept. */
    method UpdateData(u: UserId, key: string, value: string)
      modifies this
      ensures data == old(data)[u := old(DataOf(u))[key := value]] && states == old(states)
    {
      data := data[u := DataOf(u)[key := value]];
    }
  }
}
