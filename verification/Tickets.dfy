/** The ticket state machine together with the role permissions, over every run of actions. */
module Tickets {
  import opened Sums

  datatype Status =
    | Open | WaitingApproval | InProgress | WaitingForParts | Resolved | Closed | Cancelled | Rejected

  datatype Action =
    | Take | Assign | Start | WaitForParts | Resume | Resolve | Deliver | Cancel | Reopen | Approve | Reject

  datatype Role = Admin | Manager | Technician | Viewer

  /** The transition table; None where the action is not listed for the status. */
  function Transition(status: Status, action: Action): Option<Status>
  {
    match status
    case Open =>
      (match action
       case Take => Some(InProgress)
       case Assign => Some(InProgress)
       case Cancel => Some(Cancelled)
       case _ => None)
    case WaitingApproval =>
      (match action
       case Approve => Some(InProgress)
       case Reject => Some(Rejected)
       case Cancel => Some(Cancelled)
       case _ => None)
    case InProgress =>
      (match action
       case WaitForParts => Some(WaitingForParts)
       case Resolve => Some(Resolved)
       case Cancel => Some(Cancelled)
       case _ => None)
    case WaitingForParts =>
      (match action
       case Resume => Some(InProgress)
       case Cancel => Some(Cancelled)
       case _ => None)
    case Resolved =>
      (match action
       case Deliver => Some(Closed)
       case Reopen => Some(InProgress)
       case Cancel => Some(Cancelled)
       case _ => None)
    case Closed =>
      (match action
       case Reopen => Some(InProgress)
       case Cancel => Some(Cancelled)
       case _ => None)
    case Cancelled => if action == Reopen then Some(Open) else None
    case Rejected => if action == Reopen then Some(Open) else None
  }

  /** The role and action permission tables combined; approve and reject are in neither. */
  predicate Permitted(role: Role, action: Action)
  {
    match role
    case Admin => action != Approve && action != Reject
    case Manager => action != Approve && action != Reject
    case Technician => action in {Take, Start, WaitForParts, Resume, Resolve}
    case Viewer => false
  }

  /** The status after a run, or None when some action was not valid at its turn. */
  function Run(status: Status, actions: seq<Action>): Option<Status>
  {
    if actions == [] then Some(status)
    else
      match Run(status, actions[..|actions| - 1])
      case None => None
      case Some(now) => Transition(now, actions[|actions| - 1])
  }

  function Times(actions: seq<Action>, action: Action): nat
  {
    if actions == [] then 0
    else Times(actions[..|actions| - 1], action) + if actions[|actions| - 1] == action then 1 else 0
  }

  lemma {:induction false} Counting(actions: seq<Action>)
    requires Run(Open, actions).Some?
    ensures
      var now := Run(Open, actions).value;
      && Times(actions, Deliver) + (if now == Resolved then 1 else 0) <= Times(actions, Resolve)
      && Times(actions, Resume) + (if now == WaitingForParts then 1 else 0) <= Times(actions, WaitForParts)
  {
    if actions == [] {
    } else {
      Counting(actions[..|actions| - 1]);
    }
  }

  lemma {:induction false} PrefixRuns(status: Status, actions: seq<Action>, n: nat)
    requires n <= |actions| && Run(status, actions).Some?
    ensures Run(status, actions[..n]).Some?
  {
    if n == |actions| {
      assert actions[..n] == actions;
    } else {
      assert actions[..|actions| - 1][..n] == actions[..n];
      PrefixRuns(status, actions[..|actions| - 1], n);
    }
  }

  /** At every point of a valid run from OPEN, each delivery has had its own resolution before it
      and each resumption its own wait. */
  lemma DeliveriesAreResolved(actions: seq<Action>, n: nat)
    requires n <= |actions| && Run(Open, actions).Some?
    ensures Times(actions[..n], Deliver) <= Times(actions[..n], Resolve)
    ensures Times(actions[..n], Resume) <= Times(actions[..n], WaitForParts)
  {
    PrefixRuns(Open, actions, n);
    Counting(actions[..n]);
  }

  predicate AllPermitted(role: Role, actions: seq<Action>)
  {
    forall i :: 0 <= i < |actions| ==> Permitted(role, actions[i])
  }

  /** A technician alone, from wherever the ticket is, brings no ticket to CLOSED, CANCELLED or
      REJECTED that was not there already, and never moves a resolved one. */
  lemma {:induction false} TechnicianRuns(status: Status, actions: seq<Action>)
    requires AllPermitted(Technician, actions) && Run(status, actions).Some?
    ensures
      var now := Run(status, actions).value;
      && (now in {Closed, Cancelled, Rejected, WaitingApproval, Open} ==> now == status)
      && (status in {Resolved, Closed, Cancelled, Rejected, WaitingApproval} ==> actions == [] && now == status)
  {
    if actions == [] {
    } else {
      TechnicianRuns(status, actions[..|actions| - 1]);
    }
  }

  /** From OPEN a technician reaches exactly OPEN, IN_PROGRESS, WAITING_FOR_PARTS and RESOLVED. */
  lemma TechnicianReach(to: Status)
    ensures (exists actions :: AllPermitted(Technician, actions) && Run(Open, actions) == Some(to))
      <==> to in {Open, InProgress, WaitingForParts, Resolved}
  {
    if to in {Open, InProgress, WaitingForParts, Resolved} {
      var actions :=
        if to == Open then [] else if to == InProgress then [Take]
        else if to == WaitingForParts then [Take, WaitForParts] else [Take, Resolve];
      assert [Take, WaitForParts][..1] == [Take] && [Take, Resolve][..1] == [Take] && [Take][..0] == [];
      assert Run(Open, [Take]) == Some(InProgress);
      assert AllPermitted(Technician, actions) && Run(Open, actions) == Some(to);
    }
    forall actions | AllPermitted(Technician, actions) && Run(Open, actions) == Some(to)
      ensures to in {Open, InProgress, WaitingForParts, Resolved}
    {
      TechnicianRuns(Open, actions);
    }
  }

  /** The table read backwards: by which actions, and from where, each status is entered. In
      particular nothing leads to WAITING_APPROVAL, and only reopening leads out of an end. */
  lemma EnteredOnlyBy(from: Status, action: Action, to: Status)
    ensures Transition(from, action) == Some(to) <==>
      match to
      case Open => action == Reopen && from in {Cancelled, Rejected}
      case WaitingApproval => false
      case InProgress =>
        || (from == Open && action in {Take, Assign})
        || (from == WaitingApproval && action == Approve)
        || (from == WaitingForParts && action == Resume)
        || (from in {Resolved, Closed} && action == Reopen)
      case WaitingForParts => from == InProgress && action == WaitForParts
      case Resolved => from == InProgress && action == Resolve
      case Closed => from == Resolved && action == Deliver
      case Cancelled => action == Cancel && from !in {Cancelled, Rejected}
      case Rejected => from == WaitingApproval && action == Reject
  {
  }

  /** The permission tables read by action: work on the ticket is for all but the viewer, its
      assignment and its ends for administrators and managers, approval and rejection for nobody. */
  lemma PermittedTo(role: Role, action: Action)
    ensures Permitted(role, action) <==>
      match action
      case Take | Start | WaitForParts | Resume | Resolve => role != Viewer
      case Assign | Deliver | Cancel | Reopen => role == Admin || role == Manager
      case Approve | Reject => false
  {
  }

  /** START is permitted to every role but the viewer, and is no transition of any status; no role is
      permitted to approve or reject, which are transitions. */
  lemma DeadEntries(status: Status, role: Role)
    ensures Transition(status, Start) == None && (Permitted(role, Start) <==> role != Viewer)
    ensures !Permitted(role, Approve) && !Permitted(role, Reject)
    ensures Transition(WaitingApproval, Approve).Some? && Transition(WaitingApproval, Reject).Some?
  {
  }
}
