/** Workflow states of a tracker story and the forward-only transition table. */
module Workflow {
  import opened Wrappers

  /** A story's current_state. Other stands for any state name the tracker reports that is not
      one of the six named here (such as "unscheduled"); its name is never one of theirs. */
  datatype State = Unstarted | Rejected | Started | Finished | Delivered | Accepted | Other(name: string)
  {
    /** The state's name as the tracker spells it. */
    function Name(): string
    {
      match this
      case Unstarted => "unstarted"
      case Rejected => "rejected"
      case Started => "started"
      case Finished => "finished"
      case Delivered => "delivered"
      case Accepted => "accepted"
      case Other(n) => n
    }
  }

  /** ACTIVE_STATES: the states whose estimates count toward the points still to do. */
  const ActiveStates: seq<State> := [Unstarted, Rejected, Started]

  /** The columns both reports show, in display order (STATES in the command-line report,
      @states in the project page). */
  const Columns: seq<State> := [Unstarted, Rejected, Started, Finished, Delivered]

  /** The columns the project page drops when no story is in them. */
  const ConditionalColumns: seq<State> := [Rejected, Delivered]

  /** STATE_FORWARD_TRANSITION, entry for entry. */
  const ForwardTransition: map<State, State> :=
    map[Unstarted := Started, Started := Finished, Finished := Delivered, Delivered := Accepted]

  predicate IsActive(s: State)
  {
    s in ActiveStates
  }

  /** The table lookup: None where the table has no entry (Ruby's nil). */
  function NextState(s: State): Option<State>
  {
    if s in ForwardTransition then Some(ForwardTransition[s]) else None
  }

  /** The table's domain: exactly the four states below, so rejected, accepted and every other
      state have no successor. */
  lemma TransitionDomain(s: State)
    ensures NextState(s).Some? <==> s == Unstarted || s == Started || s == Finished || s == Delivered
    ensures s == Rejected || s == Accepted || s.Other? ==> NextState(s) == None
  {
  }

  /** The review pipeline the table walks, in order. */
  const Pipeline: seq<State> := [Unstarted, Started, Finished, Delivered, Accepted]

  /** The table sends each pipeline state to the one after it, and has no other entry. */
  lemma NextIsPipelineStep(s: State, t: State)
    ensures NextState(s) == Some(t) <==>
            exists i :: 0 <= i < |Pipeline| - 1 && Pipeline[i] == s && Pipeline[i + 1] == t
  {
    if NextState(s) == Some(t) {
      var i := if s == Unstarted then 0 else if s == Started then 1 else if s == Finished then 2 else 3;
      assert Pipeline[i] == s && Pipeline[i + 1] == t;
    }
  }

  /** Position in the pipeline; -1 for states outside it. */
  function Rank(s: State): int
  {
    match s
    case Unstarted => 0
    case Started => 1
    case Finished => 2
    case Delivered => 3
    case Accepted => 4
    case _ => -1
  }

  /** Applying the `next` transition k times, failing as soon as a state has no entry. */
  function Advance(s: State, k: nat): Option<State>
    decreases k
  {
    if k == 0 then Some(s)
    else match NextState(s)
      case None => None
      case Some(t) => Advance(t, k - 1)
  }

  /** Every successful advance moves exactly one step up the pipeline. */
  lemma {:induction false} AdvanceClimbs(s: State, k: nat, t: State)
    requires k > 0 && Advance(s, k) == Some(t)
    ensures 0 <= Rank(s) && Rank(t) == Rank(s) + k <= 4
    decreases k
  {
    var n := NextState(s).value;
    if k > 1 {
      AdvanceClimbs(n, k - 1, t);
    }
  }

  /** Transitions only go forward: no story returns to a state it has left, and none can be
      advanced five times in a row. */
  lemma ForwardOnly(s: State, k: nat)
    ensures k > 0 ==> Advance(s, k) != Some(s)
    ensures k >= 5 ==> Advance(s, k) == None
  {
    if k > 0 && Advance(s, k).Some? {
      AdvanceClimbs(s, k, Advance(s, k).value);
    }
  }

  /** A fresh story reaches accepted after exactly four advances, and the fifth fails. */
  lemma UnstartedToAccepted()
    ensures Advance(Unstarted, 4) == Some(Accepted)
    ensures Advance(Unstarted, 5) == None
  {
  }
}
