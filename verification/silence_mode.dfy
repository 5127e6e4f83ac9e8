/**
 * The per-group silence register (`_silence_states`): groups in silence mode are asked to
 * talk less. A group that was never set is not silent.
 */
module SilenceMode {
  import opened Json
  import opened Wrappers

  /** `is_silent` over a snapshot of the register. */
  function SilentIn(states: map<int, bool>, groupId: int): bool {
    if groupId in states then states[groupId] else false
  }

  /** The module-level dictionary and its two accessors. */
  class SilenceRegister {
    var states: map<int, bool>

    constructor ()
      ensures states == map[]
    {
      states := map[];
    }

    /** `is_silent(group_id)`: `_silence_states.get(group_id, False)`. */
    function IsSilent(groupId: int): (b: bool)
      reads this
      ensures groupId !in states ==> !b
      ensures groupId in states ==> b == states[groupId]
    {
      SilentIn(states, groupId)
    }

    /** `set_silent(group_id, silent)`: overwrites exactly that group's entry. */
    method SetSilent(groupId: int, silent: bool)
      modifies this
      ensures states == old(states)[groupId := silent]
      ensures IsSilent(groupId) == silent
      ensures forall g :: g != groupId ==> IsSilent(g) == old(IsSilent(g))
    {
      states := states[groupId := silent];
    }
  }

  /**
   * The transition both judges apply after a successful judgment, when `group_id` is truthy
   * (present and non-zero): a complaint about talking too much turns silence on; otherwise a
   * request to speak more turns it off; with neither flag the register is untouched.
   */
  function SilenceAfter(states: map<int, bool>, groupId: Option<int>,
                        complaining: Value, asking: Value): (r: map<int, bool>)
    ensures groupId.None? || groupId.value == 0 ==> r == states
    ensures groupId.Some? && groupId.value != 0 ==>
      var g := groupId.value;
      && (Truthy(complaining) ==> SilentIn(r, g))
      && (!Truthy(complaining) && Truthy(asking) ==> !SilentIn(r, g))
      && (!Truthy(complaining) && !Truthy(asking) ==> r == states)
      && (forall h :: h != g ==> SilentIn(r, h) == SilentIn(states, h))
  {
    match groupId
    case None => states
    case Some(g) =>
      if g == 0 then states
      else if Truthy(complaining) then states[g := true]
      else if Truthy(asking) then states[g := false]
      else states
  }

  /** Applying the same judgment's transition twice is applying it once. */
  lemma SilenceAfterIdempotent(states: map<int, bool>, groupId: Option<int>,
                               complaining: Value, asking: Value)
    ensures SilenceAfter(SilenceAfter(states, groupId, complaining, asking), groupId, complaining, asking)
            == SilenceAfter(states, groupId, complaining, asking)
  {
  }

  /** Of two judgments for the same group, the later one decides the group's mode whenever it
      raises either flag; a judgment raising neither keeps what the earlier one set. */
  lemma LastTransitionWins(states: map<int, bool>, g: int, c1: Value, a1: Value, c2: Value, a2: Value)
    requires g != 0
    ensures var after := SilenceAfter(SilenceAfter(states, Some(g), c1, a1), Some(g), c2, a2);
      && (Truthy(c2) || Truthy(a2) ==> SilentIn(after, g) == Truthy(c2))
      && (!Truthy(c2) && !Truthy(a2) ==>
            SilentIn(after, g) == SilentIn(SilenceAfter(states, Some(g), c1, a1), g))
  {
  }

  /** Applied to the register object: the same rule, written as the judges write it. */
  method ApplySilenceTransition(register: SilenceRegister, groupId: Option<int>,
                                complaining: Value, asking: Value)
    modifies register
    ensures register.states == SilenceAfter(old(register.states), groupId, complaining, asking)
  {
    if groupId.Some? && groupId.value != 0 {
      if Truthy(complaining) {
        register.SetSilent(groupId.value, true);
      } else if Truthy(asking) {
        register.SetSilent(groupId.value, false);
      }
    }
  }
}
