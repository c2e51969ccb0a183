/** Language-server session slots: one server per language, restarted within a budget, then disabled. */
module SessionSlots {
  import opened Wrappers

  datatype Language = TypeScript | Python | Rust

  datatype SessionState = Starting | Ready | Restarting | Failed

  datatype Slot = Slot(running: bool, state: SessionState, restartCount: nat, disabled: bool)

  /** How the outside world behaves during one operation: whether a missing server starts, whether
      the operation succeeds, and if not, whether a restart and then the retry do. */
  datatype Fate = Fate(starts: bool, applies: bool, restarts: bool, retries: bool)

  /** What reaches the slots: an operation, a request that borrows a session, the wait at start-up. */
  datatype Call =
    | Operate(language: Language, fate: Fate)
    | Borrow(file: Option<Language>, fate: Fate)
    | WarmUp(fates: Language -> Fate)

  const MAX_RESTART_ATTEMPTS: nat := 3

  function NewSlot(): Slot {
    Slot(false, Starting, 0, false)
  }

  /** What holds of a slot between operations, with the number of servers ever started for it. */
  predicate Sound(slot: Slot, started: nat) {
    && (slot.disabled <==> slot.state == Failed)
    && (slot.disabled ==> !slot.running)
    && started <= MAX_RESTART_ATTEMPTS
    && slot.restartCount <= MAX_RESTART_ATTEMPTS
    && (slot.running ==>
          slot.state == Ready && slot.restartCount < MAX_RESTART_ATTEMPTS && started == slot.restartCount + 1)
    && (!slot.running && !slot.disabled ==> slot == NewSlot() && started == 0)
  }

  class SessionManager {
    const enabled: bool
    var slots: map<Language, Slot>
    ghost var started: map<Language, nat>

    ghost predicate Valid()
      reads this
    {
      forall l: Language :: l in slots && l in started && Sound(slots[l], started[l])
    }

    constructor (enabled: bool)
      ensures Valid() && this.enabled == enabled
    {
      this.enabled := enabled;
      slots := map[TypeScript := NewSlot(), Python := NewSlot(), Rust := NewSlot()];
      started := map[TypeScript := 0, Python := 0, Rust := 0];
      new;
      forall l: Language ensures l in slots && l in started && Sound(slots[l], started[l]) {
        match l { case TypeScript => case Python => case Rust => }
      }
    }

    // Puts a slot back, with the number of servers it has had so far.
    method Insert(language: Language, slot: Slot, ghost count: nat)
      requires Valid() && Sound(slot, count)
      modifies this
      ensures Valid() && slots == old(slots)[language := slot] && started == old(started)[language := count]
    {
      slots := slots[language := slot];
      started := started[language := count];
    }

    /** `ensure_session`: leaves a running or a disabled slot, and never touches one that is either. */
    method EnsureSession(language: Language, fate: Fate)
      requires Valid()
      modifies this
      ensures Valid()
      ensures forall l: Language | l != language :: slots[l] == old(slots[l]) && started[l] == old(started[l])
      ensures old(slots[language].disabled || slots[language].running) ==>
                slots[language] == old(slots[language]) && started[language] == old(started[language])
      ensures !old(slots[language].disabled || slots[language].running) ==>
                slots[language].running == fate.starts && slots[language].disabled == !fate.starts
                && started[language] == 1
      ensures slots[language].restartCount == old(slots[language].restartCount)
    {
      var slot := slots[language];
      if slot.disabled || slot.running {
        return;
      }
      if fate.starts {
        slot := slot.(state := Ready, running := true);
      } else {
        slot := slot.(state := Failed, disabled := true);
      }
      Insert(language, slot, 1);
    }

    /** `apply_operation`: a failure restarts the server and retries once, while the budget lasts. */
    method ApplyOperation(language: Language, fate: Fate) returns (applied: bool)
      requires Valid()
      modifies this
      ensures Valid()
      ensures forall l: Language | l != language :: slots[l] == old(slots[l]) && started[l] == old(started[l])
      ensures old(slots[language].disabled) ==> slots[language] == old(slots[language]) && !applied
      ensures applied ==> slots[language].running
      ensures enabled && !old(slots[language].disabled) ==> (applied <==> !slots[language].disabled)
      ensures !enabled ==> slots == old(slots) && !applied
      ensures applied <==>
                enabled && !old(slots[language].disabled) && (old(slots[language].running) || fate.starts)
                && (fate.applies || (old(slots[language].restartCount) + 1 < 3 && fate.restarts && fate.retries))
      ensures enabled && !old(slots[language].disabled) && (old(slots[language].running) || fate.starts) ==>
                var attempts := if fate.applies then 0 else 1;
                var first := if old(slots[language].running) then old(started[language]) else 1;
                && slots[language].restartCount == old(slots[language].restartCount) + attempts
                && started[language] == first + if slots[language].restartCount < 3 then attempts else 0
    {
      applied := false;
      if !enabled {
        return;
      }
      EnsureSession(language, fate);
      var slot := slots[language];
      if slot.disabled {
        return;
      }
      if fate.applies {
        return true;
      }
      ghost var count := started[language];
      slot := slot.(state := Restarting, running := false, restartCount := slot.restartCount + 1);
      if slot.restartCount < MAX_RESTART_ATTEMPTS {
        count := count + 1;
        if fate.restarts {
          slot := slot.(state := Ready);
          if fate.retries {
            slot := slot.(running := true);
            applied := true;
          } else {
            slot := slot.(state := Failed, disabled := true);
          }
        } else {
          slot := slot.(state := Failed, disabled := true);
        }
      } else {
        slot := slot.(state := Failed, disabled := true);
      }
      Insert(language, slot, count);
    }

    /** `session_for`: hands out the language's session, starting its server if it has none yet. */
    method SessionFor(language: Option<Language>, fate: Fate) returns (found: bool)
      requires Valid()
      modifies this
      ensures Valid()
      ensures found <==> enabled && language.Some? && slots[language.value].running
      ensures !enabled || language.None? ==> slots == old(slots) && started == old(started)
      ensures forall l: Language | old(slots[l].disabled) || Some(l) != language :: slots[l] == old(slots[l])
    {
      if !enabled || language.None? {
        return false;
      }
      EnsureSession(language.value, fate);
      found := !slots[language.value].disabled && slots[language.value].running;
    }

    /** `wait_for_indexing`: starts the servers of all languages, one after another. */
    method WaitForIndexing(fates: Language -> Fate)
      requires Valid()
      modifies this
      ensures Valid()
      ensures !enabled ==> slots == old(slots) && started == old(started)
      ensures enabled ==> forall l: Language :: slots[l].running || slots[l].disabled
      ensures forall l: Language | old(slots[l].disabled) :: slots[l] == old(slots[l])
    {
      if !enabled {
        return;
      }
      EnsureSession(TypeScript, fates(TypeScript));
      EnsureSession(Python, fates(Python));
      EnsureSession(Rust, fates(Rust));
      forall l: Language ensures slots[l].running || slots[l].disabled {
        match l { case TypeScript => case Python => case Rust => }
      }
    }

    /** Any run of calls and failures: at most three servers per language, and disabled is for good. */
    method Serve(calls: seq<Call>) returns (ghost disabledAt: seq<set<Language>>)
      requires Valid()
      modifies this
      ensures Valid()
      ensures forall l: Language :: started[l] <= 3 && slots[l].restartCount <= 3
      ensures forall l: Language :: slots[l].disabled <==> slots[l].state == Failed
      ensures |disabledAt| == |calls| + 1
      ensures forall i, j | 0 <= i < j < |disabledAt| :: disabledAt[i] <= disabledAt[j]
      ensures forall l: Language | l in disabledAt[|calls|] :: slots[l].disabled && !slots[l].running
    {
      disabledAt := [Disabled()];
      for n := 0 to |calls|
        invariant Valid()
        invariant |disabledAt| == n + 1 && disabledAt[n] == Disabled()
        invariant forall i, j | 0 <= i < j < |disabledAt| :: disabledAt[i] <= disabledAt[j]
      {
        ghost var before := Disabled();
        Perform(calls[n]);
        disabledAt := disabledAt + [Disabled()];
      }
    }

    method Perform(call: Call)
      requires Valid()
      modifies this
      ensures Valid() && old(Disabled()) <= Disabled()
    {
      match call {
        case Operate(language, fate) => var _ := ApplyOperation(language, fate);
        case Borrow(language, fate) => var _ := SessionFor(language, fate);
        case WarmUp(fates) => WaitForIndexing(fates);
      }
    }

    ghost function Disabled(): (d: set<Language>)
      requires Valid()
      reads this
      ensures forall l: Language :: l in d <==> slots[l].disabled
    {
      set l: Language | l in slots && slots[l].disabled
    }
  }
}
