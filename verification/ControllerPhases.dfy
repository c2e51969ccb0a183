/** The phase of a controller turn, and the action types each phase admits. */
module ControllerPhases {
  datatype Phase = DECIDE | EDIT | EXPLAIN

  function PhaseTypes(phase: Phase): set<string> {
    match phase
    case DECIDE => {"tool_call", "answer", "clarify", "propose_mode"}
    case EDIT => {"tool_call", "edit", "clarify", "submit_changes"}
    case EXPLAIN => {"tool_call", "answer", "clarify"}
  }

  class ControllerPhaseSM {
    var phase: Phase

    constructor ()
      ensures phase == DECIDE
    {
      phase := DECIDE;
    }

    /** One way only: false stands for the error, which changes nothing. */
    method Enter(next: Phase) returns (entered: bool)
      requires next != DECIDE
      modifies this
      ensures entered <==> old(phase) == DECIDE
      ensures phase == if entered then next else old(phase)
    {
      entered := phase == DECIDE;
      if entered {
        phase := next;
      }
    }
  }
}
