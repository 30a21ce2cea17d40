/** The registrar's administrative actions on domains and domain requests: removing a
    domain from the registry, placing and lifting a client hold, the review-status
    changes an analyst saves on a request, with their notifications and their effects on
    the approved domain and the requesting user, and the status choices the admin form
    offers. The registry is an oracle that accepts or refuses each command. */
module DomainAdmin {
  import opened Wrappers

  // ---------------------------------------------------------------------------------
  // Domain lifecycle
  // ---------------------------------------------------------------------------------

  /** `Domain.State`. */
  datatype DomainState = Unknown | DnsNeeded | Ready | OnHold | Deleted

  /** The value stored in the `state` column. */
  function StateValue(s: DomainState): string {
    match s
    case Unknown => "unknown"
    case DnsNeeded => "dns needed"
    case Ready => "ready"
    case OnHold => "on hold"
    case Deleted => "deleted"
  }

  /** What the registry answers to a command: it carries it out, or refuses it with a
      reason. */
  datatype Reply = Accepted | Refused(reason: string)

  /** The level and text of a message the admin page shows. */
  datatype Level = Info | Error
  datatype Message = Message(level: Level, text: string)

  const AlreadyDeletedText: string := "This domain is already deleted"

  function DeletedText(name: string): string {
    "Domain " + name + " has been deleted. Thanks!"
  }

  /** The error for a deletion attempted from a state the transition does not start from. */
  function WrongSourceText(s: DomainState): string {
    "Error deleting this Domain: Can't switch from state '" + StateValue(s)
      + "' to 'deleted', must be either 'dns_needed' or 'on_hold'"
  }

  /** The states a domain may be removed from the registry in. */
  predicate Deletable(s: DomainState) {
    s == DnsNeeded || s == OnHold
  }

  /** The states a client hold may be placed from. */
  predicate Holdable(s: DomainState) {
    s == Ready || s == DnsNeeded
  }

  /** `DomainAdmin.do_delete_domain`: the state the domain is left in and the message
      shown. Only a deletable domain is sent to the registry; a deleted one reports that
      it already is; any other state is refused without contacting the registry. */
  function DeleteOutcome(s: DomainState, name: string, reply: Reply): (r: (DomainState, Message))
    ensures r.0 == Deleted <==> s == Deleted || (Deletable(s) && reply.Accepted?)
    ensures r.0 == s || (Deletable(s) && r.0 == Deleted)
    ensures r.1.level == Info <==> r.0 == Deleted
  {
    if Deletable(s) then
      match reply
      case Accepted => (Deleted, Message(Info, DeletedText(name)))
      case Refused(why) => (s, Message(Error, "Error deleting this Domain: " + why))
    else if s == Deleted then (Deleted, Message(Info, AlreadyDeletedText))
    else (s, Message(Error, WrongSourceText(s)))
  }

  /** An action an analyst can take on a domain. Releasing a hold carries the number of
      name servers the registry reports for the domain, which decides where it goes. */
  datatype Action = PlaceHold(reply: Reply) | RemoveHold(reply: Reply, nameservers: nat) | Remove(reply: Reply)

  /** The state a released hold leads to: ready when name servers are configured,
      otherwise back to needing DNS. */
  function Released(nameservers: nat): (t: DomainState)
    ensures t == Ready <==> nameservers > 0
    ensures t == DnsNeeded <==> nameservers == 0
  {
    if nameservers > 0 then Ready else DnsNeeded
  }

  /** The state a domain is in after one action. */
  function Next(s: DomainState, a: Action): (t: DomainState)
    ensures t != s ==> a.reply.Accepted?
    ensures t == OnHold && s != OnHold ==> a.PlaceHold? && Holdable(s)
    ensures s == OnHold && t != OnHold ==>
              (a.RemoveHold? && t == Released(a.nameservers)) || (a.Remove? && t == Deleted)
  {
    match a
    case PlaceHold(reply) => if Holdable(s) && reply.Accepted? then OnHold else s
    case RemoveHold(reply, nameservers) =>
      if s == OnHold && reply.Accepted? then Released(nameservers) else s
    case Remove(reply) => DeleteOutcome(s, "", reply).0
  }

  /** The state after a sequence of actions, first to last. */
  function After(s: DomainState, actions: seq<Action>): DomainState
    decreases |actions|
  {
    if actions == [] then s else After(Next(s, actions[0]), actions[1..])
  }

  lemma {:induction false} AfterAppend(s: DomainState, actions: seq<Action>, a: Action)
    ensures After(s, actions + [a]) == Next(After(s, actions), a)
    decreases |actions|
  {
    if actions != [] {
      assert (actions + [a])[1..] == actions[1..] + [a];
      AfterAppend(Next(s, actions[0]), actions[1..], a);
    }
  }

  /** A deleted domain stays deleted whatever is done to it. */
  lemma {:induction false} DeletedIsTerminal(actions: seq<Action>)
    ensures After(Deleted, actions) == Deleted
    decreases |actions|
  {
    if actions != [] {
      DeletedIsTerminal(actions[1..]);
    }
  }

  /** A domain that starts ready and leaves that state passes through `OnHold`: the only
      way out of `Ready` is an accepted hold. */
  lemma {:induction false} LeavingReadyPassesHold(actions: seq<Action>)
    requires After(Ready, actions) != Ready
    ensures exists i :: 0 <= i <= |actions| && After(Ready, actions[..i]) == OnHold
    decreases |actions|
  {
    var n := |actions| - 1;
    assert actions == actions[..n] + [actions[n]];
    AfterAppend(Ready, actions[..n], actions[n]);
    var s := After(Ready, actions[..n]);
    if s == Ready {
      assert Next(Ready, actions[n]) == OnHold;
      assert actions[..|actions|] == actions;
    } else {
      LeavingReadyPassesHold(actions[..n]);
      var i :| 0 <= i <= n && After(Ready, actions[..n][..i]) == OnHold;
      assert actions[..n][..i] == actions[..i];
    }
  }

  /** A domain that is ready is never removed directly: every sequence of actions that
      ends with it deleted has it on hold at some step before the removal. */
  lemma {:induction false} ReadyIsHeldBeforeDeletion(actions: seq<Action>)
    requires After(Ready, actions) == Deleted
    ensures exists i :: 0 <= i < |actions| && After(Ready, actions[..i]) == OnHold
  {
    var n := |actions| - 1;
    assert actions == actions[..n] + [actions[n]];
    AfterAppend(Ready, actions[..n], actions[n]);
    var s := After(Ready, actions[..n]);
    assert s != Ready;
    LeavingReadyPassesHold(actions[..n]);
    var i :| 0 <= i <= n && After(Ready, actions[..n][..i]) == OnHold;
    assert actions[..n][..i] == actions[..i];
  }

  /** Only a removal from a deletable state enters `Deleted`. */
  lemma EnteringDeleted(s: DomainState, a: Action)
    requires s != Deleted && Next(s, a) == Deleted
    ensures a.Remove? && Deletable(s)
  {
  }

  /** Without provisioning, a domain that is known never goes back to being unknown. */
  lemma {:induction false} NeverUnknown(s: DomainState, actions: seq<Action>)
    requires s != Unknown
    ensures After(s, actions) != Unknown
    decreases |actions|
  {
    if actions != [] {
      NeverUnknown(Next(s, actions[0]), actions[1..]);
    }
  }

  /** A hold released while the registry reports no name servers. */
  predicate BareRelease(a: Action)
  {
    a.RemoveHold? && a.reply.Accepted? && a.nameservers == 0
  }

  /** A domain that starts ready, on hold or deleted needs DNS again only after a hold
      was released with no name servers configured. */
  lemma {:induction false} DnsNeededOnlyAfterBareRelease(s: DomainState, actions: seq<Action>)
    requires s == Ready || s == OnHold || s == Deleted
    requires After(s, actions) == DnsNeeded
    ensures exists i :: 0 <= i < |actions| && BareRelease(actions[i])
    decreases |actions|
  {
    var t := Next(s, actions[0]);
    if BareRelease(actions[0]) {
    } else {
      assert t == Ready || t == OnHold || t == Deleted;
      DnsNeededOnlyAfterBareRelease(t, actions[1..]);
      var i :| 0 <= i < |actions[1..]| && BareRelease(actions[1..][i]);
      assert actions[1..][i] == actions[i + 1];
    }
  }

  /** Removing a ready domain is refused with a message naming the two states removal
      is allowed from, and the domain stays ready. */
  lemma DeletingReadyIsRefused(name: string, reply: Reply)
    ensures DeleteOutcome(Ready, name, reply)
      == (Ready, Message(Error, "Error deleting this Domain: Can't switch from state '" + "ready"
                                + "' to 'deleted', must be either 'dns_needed' or 'on_hold'"))
  {
  }

  /** A ready domain placed on hold is removed with a success message; removing it a
      second time reports that it is already deleted and leaves it deleted. */
  lemma HoldThenDeleteTwice(name: string, again: Reply)
    ensures Next(Ready, PlaceHold(Accepted)) == OnHold
    ensures DeleteOutcome(OnHold, name, Accepted) == (Deleted, Message(Info, DeletedText(name)))
    ensures DeleteOutcome(Deleted, name, again) == (Deleted, Message(Info, AlreadyDeletedText))
  {
  }

  /** A registered domain. */
  class Domain {
    const name: string
    var state: DomainState

    /** A fresh row starts in the default state. */
    constructor(name: string)
      ensures this.name == name && state == Unknown
    {
      this.name := name;
      state := Unknown;
    }

    /** `place_client_hold`: moves a ready or DNS-needed domain on hold once the
        registry accepts the hold. */
    method PlaceClientHold(reply: Reply) returns (done: bool)
      modifies this
      ensures state == Next(old(state), PlaceHold(reply))
      ensures done <==> Holdable(old(state)) && reply.Accepted?
    {
      done := Holdable(state) && reply.Accepted?;
      if done {
        state := OnHold;
      }
    }

    /** `remove_client_hold`: releases a held domain once the registry accepts the
        change; it becomes ready when `nameservers` (the registry's count of its name
        servers) is positive and needs DNS again otherwise. */
    method RemoveClientHold(reply: Reply, nameservers: nat) returns (done: bool)
      modifies this
      ensures state == Next(old(state), RemoveHold(reply, nameservers))
      ensures done <==> old(state) == OnHold && reply.Accepted?
      ensures done ==> (state == Ready <==> nameservers > 0)
    {
      done := state == OnHold && reply.Accepted?;
      if done {
        state := if nameservers > 0 then Ready else DnsNeeded;
      }
    }
  }

  /** `DomainAdmin.do_delete_domain`: removes the domain from the registry and reports
      the outcome. */
  method DoDeleteDomain(d: Domain, reply: Reply) returns (m: Message)
    modifies d
    ensures (d.state, m) == DeleteOutcome(old(d.state), d.name, reply)
  {
    if Deletable(d.state) {
      match reply
      case Accepted =>
        d.state := Deleted;
        m := Message(Info, DeletedText(d.name));
      case Refused(why) =>
        m := Message(Error, "Error deleting this Domain: " + why);
    } else if d.state == Deleted {
      m := Message(Info, AlreadyDeletedText);
    } else {
      m := Message(Error, WrongSourceText(d.state));
    }
  }

  // ---------------------------------------------------------------------------------
  // Review status of a domain request
  // ---------------------------------------------------------------------------------

  /** `DomainApplication.ApplicationStatus`. */
  datatype Status = Started | Submitted | InReview | ActionNeeded | Approved | Withdrawn | Rejected | Ineligible

  /** Every status, in the order the status field lists its choices. */
  const Statuses: seq<Status> :=
    [Started, Submitted, InReview, ActionNeeded, Approved, Withdrawn, Rejected, Ineligible]

  lemma StatusesListsEachOnce(s: Status)
    ensures s in Statuses
    ensures Distinct(Statuses)
  {
  }

  /** The value stored in the `status` column. */
  function StatusValue(s: Status): string {
    match s
    case Started => "started"
    case Submitted => "submitted"
    case InReview => "in review"
    case ActionNeeded => "action needed"
    case Approved => "approved"
    case Withdrawn => "withdrawn"
    case Rejected => "rejected"
    case Ineligible => "ineligible"
  }

  /** The label the status field shows. */
  function StatusLabel(s: Status): string {
    match s
    case Started => "Started"
    case Submitted => "Submitted"
    case InReview => "In review"
    case ActionNeeded => "Action needed"
    case Approved => "Approved"
    case Withdrawn => "Withdrawn"
    case Rejected => "Rejected"
    case Ineligible => "Ineligible"
  }

  /** The statuses a request may move to from each status. */
  function Transitions(s: Status): (next: set<Status>)
    ensures s !in next
    ensures Started !in next
  {
    match s
    case Started => {Submitted}
    case Submitted => {InReview, ActionNeeded, Approved, Withdrawn, Rejected, Ineligible}
    case InReview => {Submitted, ActionNeeded, Approved, Withdrawn, Rejected, Ineligible}
    case ActionNeeded => {Submitted, InReview, Approved, Rejected, Ineligible}
    case Approved => {InReview, ActionNeeded, Rejected, Ineligible}
    case Withdrawn => {Submitted}
    case Rejected => {Approved}
    case Ineligible => {}
  }

  /** The notifications sent to the request's submitter. */
  datatype Notice = Received | ApprovedNotice | RejectedNotice | WithdrawnNotice

  /** A sentence the body of each notification contains. */
  function NoticeText(n: Notice): string {
    match n
    case Received => "We received your .gov domain request."
    case ApprovedNotice => "Congratulations! Your .gov domain request has been approved."
    case RejectedNotice => "Your .gov domain request has been rejected."
    case WithdrawnNotice => "Your .gov domain request has been withdrawn and will not be reviewed by our team."
  }

  /** The notification sent when a request moves from `from` to `to`, if any. */
  function NoticeOf(from: Status, to: Status): Option<Notice> {
    match to
    case Submitted => if from == Started || from == Withdrawn then Some(Received) else None
    case Approved => Some(ApprovedNotice)
    case Rejected => Some(RejectedNotice)
    case Withdrawn => Some(WithdrawnNotice)
    case _ => None
  }

  const RestrictedCreatorError: string :=
    "This action is not permitted for applications with a restricted creator."
  const ActiveDomainError: string := "This action is not permitted. The domain is already active."

  /** What saving a request with a newly selected status comes to.
      - `Blocked`: an error message is shown and nothing is saved;
      - `NotAllowed`: the status machine rejects the change and nothing is saved;
      - `Kept`: the status is the same and the request is saved as it is;
      - `Moved`: the status changes, with the notification sent, whether the approved
        domain is removed or created, and whether the creator is restricted. */
  datatype Verdict =
    | Blocked(error: string)
    | NotAllowed
    | Kept
    | Moved(to: Status, notice: Option<Notice>, unlink: bool, link: bool, restrict: bool)

  /** `DomainApplicationAdmin.save_model` for an edited request: the verdict for moving a
      request in status `from`, whose creator may be restricted and whose approved domain
      may be active, to `target`. */
  function Review(from: Status, restricted: bool, active: bool, target: Status): (v: Verdict)
    ensures v.Blocked? <==> restricted || (from == Approved && target != Approved && active)
    ensures v.Moved? <==> !v.Blocked? && target in Transitions(from)
    ensures v.Kept? <==> !v.Blocked? && target == from
    ensures v.Moved? ==> v.to == target && (v.unlink <==> from == Approved) && (v.link <==> target == Approved)
    ensures v.Moved? && v.unlink ==> !active
    ensures v.Moved? ==> (v.restrict <==> target == Ineligible)
  {
    if restricted then Blocked(RestrictedCreatorError)
    else if from == Approved && target != Approved && active then Blocked(ActiveDomainError)
    else if target == from then Kept
    else if target !in Transitions(from) then NotAllowed
    else Moved(target, NoticeOf(from, target), from == Approved, target == Approved, target == Ineligible)
  }

  /** Entering SUBMITTED notifies exactly when the request comes from STARTED or
      WITHDRAWN; entering IN REVIEW, ACTION NEEDED or INELIGIBLE never notifies; entering
      APPROVED, REJECTED or WITHDRAWN notifies every time, with its own notice. */
  lemma NoticeRules(from: Status, target: Status, active: bool)
    requires target in Transitions(from)
    requires !(from == Approved && active)
    ensures Review(from, false, active, target).Moved?
    ensures target == Submitted ==>
      (Review(from, false, active, target).notice.Some? <==> from == Started || from == Withdrawn)
    ensures target in {InReview, ActionNeeded, Ineligible} ==> Review(from, false, active, target).notice == None
    ensures target == Approved ==> Review(from, false, active, target).notice == Some(ApprovedNotice)
    ensures target == Rejected ==> Review(from, false, active, target).notice == Some(RejectedNotice)
    ensures target == Withdrawn ==> Review(from, false, active, target).notice == Some(WithdrawnNotice)
  {
  }

  /** A request whose creator is restricted cannot be moved at all, whatever the target. */
  lemma RestrictedCreatorBlocksEverySave(from: Status, active: bool, target: Status)
    ensures Review(from, true, active, target) == Blocked(RestrictedCreatorError)
  {
  }

  /** Leaving APPROVED is refused while the approved domain is active, and otherwise
      removes the approved domain. */
  lemma LeavingApproved(active: bool, target: Status)
    requires target in {InReview, ActionNeeded, Rejected, Ineligible}
    ensures active ==> Review(Approved, false, active, target) == Blocked(ActiveDomainError)
    ensures !active ==> Review(Approved, false, active, target).Moved? && Review(Approved, false, active, target).unlink
  {
  }

  /** What the request and its creator look like between saves, with the notifications
      sent so far. */
  datatype Snapshot = Snapshot(status: Status, restricted: bool, sent: seq<Notice>)

  /** The effect of one save on a snapshot. */
  function Save(s: Snapshot, active: bool, target: Status): (r: Snapshot)
    ensures |s.sent| <= |r.sent| <= |s.sent| + 1 && r.sent[..|s.sent|] == s.sent
    ensures s.restricted ==> r == s
  {
    match Review(s.status, s.restricted, active, target)
    case Moved(to, notice, _, _, restrict) =>
      Snapshot(to, s.restricted || restrict, s.sent + (if notice.Some? then [notice.value] else []))
    case _ => s
  }

  /** A sequence of saves, first to last, while the approved domain, if any, is inactive. */
  function Replay(s: Snapshot, targets: seq<Status>): Snapshot
    decreases |targets|
  {
    if targets == [] then s else Replay(Save(s, false, targets[0]), targets[1..])
  }

  /** Once the creator is restricted, no sequence of saves changes the request or sends
      anything. */
  lemma {:induction false} RestrictionFreezesRequest(s: Snapshot, targets: seq<Status>)
    requires s.restricted
    ensures Replay(s, targets) == s
    decreases |targets|
  {
    if targets != [] {
      RestrictionFreezesRequest(Save(s, false, targets[0]), targets[1..]);
    }
  }

  /** Declaring a request ineligible restricts its creator, and from then on every save
      is refused: the request stays ineligible and no notification follows. */
  lemma IneligibleIsFinal(s: Status, sent: seq<Notice>, targets: seq<Status>)
    requires Ineligible in Transitions(s)
    ensures Replay(Snapshot(s, false, sent), [Ineligible] + targets) == Snapshot(Ineligible, true, sent)
  {
    var first := Save(Snapshot(s, false, sent), false, Ineligible);
    assert first == Snapshot(Ineligible, true, sent);
    assert ([Ineligible] + targets)[1..] == targets;
    RestrictionFreezesRequest(first, targets);
  }

  /** Notifications are only ever appended: a longer sequence of saves extends the log of
      a shorter one. */
  lemma {:induction false} ReplayOnlyAppends(s: Snapshot, targets: seq<Status>)
    ensures |s.sent| <= |Replay(s, targets).sent|
    ensures Replay(s, targets).sent[..|s.sent|] == s.sent
    decreases |targets|
  {
    if targets != [] {
      var t := Save(s, false, targets[0]);
      ReplayOnlyAppends(t, targets[1..]);
      assert Replay(s, targets).sent[..|t.sent|] == t.sent;
      assert t.sent[..|s.sent|] == s.sent;
    }
  }

  /** Submitting, withdrawing and resubmitting a started request notifies three times;
      moving it through review and back to submitted sends nothing more. */
  lemma SubmissionScenario()
    ensures Replay(Snapshot(Started, false, []),
                   [Submitted, Withdrawn, Submitted, InReview, Submitted, InReview, ActionNeeded, Submitted])
      == Snapshot(Submitted, false, [Received, WithdrawnNotice, Received])
  {
    var first, later := [Submitted, Withdrawn, Submitted, InReview], [Submitted, InReview, ActionNeeded, Submitted];
    ReplayConcat(Snapshot(Started, false, []), first, later);
    assert first + later == [Submitted, Withdrawn, Submitted, InReview, Submitted, InReview, ActionNeeded, Submitted];
    SubmitWithdrawResubmit();
    BackAndForthSendsNothing([Received, WithdrawnNotice, Received]);
  }

  /** Saves one after another, split anywhere, replay in two parts. */
  lemma {:induction false} ReplayConcat(s: Snapshot, first: seq<Status>, later: seq<Status>)
    ensures Replay(s, first + later) == Replay(Replay(s, first), later)
    decreases |first|
  {
    if first == [] {
      assert first + later == later;
    } else {
      assert (first + later)[1..] == first[1..] + later;
      ReplayConcat(Save(s, false, first[0]), first[1..], later);
    }
  }

  /** Submitting, withdrawing and submitting again notifies each time but the withdrawal
      notice comes between the two receipts. */
  lemma SubmitWithdrawResubmit()
    ensures Replay(Snapshot(Started, false, []), [Submitted, Withdrawn, Submitted, InReview])
      == Snapshot(InReview, false, [Received, WithdrawnNotice, Received])
  {
    var s1 := Snapshot(Submitted, false, [Received]);
    var s2 := Snapshot(Withdrawn, false, [Received, WithdrawnNotice]);
    var s3 := Snapshot(Submitted, false, [Received, WithdrawnNotice, Received]);
    assert Save(Snapshot(Started, false, []), false, Submitted) == s1;
    assert Save(s1, false, Withdrawn) == s2;
    assert Save(s2, false, Submitted) == s3;
  }

  /** Moving between review, action needed and submitted again sends nothing. */
  lemma BackAndForthSendsNothing(sent: seq<Notice>)
    ensures Replay(Snapshot(InReview, false, sent), [Submitted, InReview, ActionNeeded, Submitted])
      == Snapshot(Submitted, false, sent)
  {
    assert Save(Snapshot(InReview, false, sent), false, Submitted) == Snapshot(Submitted, false, sent);
    assert Save(Snapshot(Submitted, false, sent), false, InReview) == Snapshot(InReview, false, sent);
    assert Save(Snapshot(InReview, false, sent), false, ActionNeeded) == Snapshot(ActionNeeded, false, sent);
    assert Save(Snapshot(ActionNeeded, false, sent), false, Submitted) == Snapshot(Submitted, false, sent);
  }

  /** Approving, rejecting and approving again notifies each decision. */
  lemma ApproveRejectApprove()
    ensures Replay(Snapshot(InReview, false, []), [Approved, Rejected, Approved]).sent
      == [ApprovedNotice, RejectedNotice, ApprovedNotice]
  {
    var s1 := Snapshot(Approved, false, [ApprovedNotice]);
    var s2 := Snapshot(Rejected, false, [ApprovedNotice, RejectedNotice]);
    assert Save(Snapshot(InReview, false, []), false, Approved) == s1;
    assert Save(s1, false, Rejected) == s2;
  }

  /** Rejecting, approving and rejecting again notifies each decision. */
  lemma RejectApproveReject()
    ensures Replay(Snapshot(InReview, false, []), [Rejected, Approved, Rejected]).sent
      == [RejectedNotice, ApprovedNotice, RejectedNotice]
  {
    var s1 := Snapshot(Rejected, false, [RejectedNotice]);
    var s2 := Snapshot(Approved, false, [RejectedNotice, ApprovedNotice]);
    assert Save(Snapshot(InReview, false, []), false, Rejected) == s1;
    assert Save(s1, false, Approved) == s2;
  }

  /** Withdrawing, resubmitting and withdrawing again notifies each time. */
  lemma WithdrawResubmitWithdraw()
    ensures Replay(Snapshot(InReview, false, []), [Withdrawn, Submitted, Withdrawn]).sent
      == [WithdrawnNotice, Received, WithdrawnNotice]
  {
    var s1 := Snapshot(Withdrawn, false, [WithdrawnNotice]);
    var s2 := Snapshot(Submitted, false, [WithdrawnNotice, Received]);
    assert Save(Snapshot(InReview, false, []), false, Withdrawn) == s1;
    assert Save(s1, false, Submitted) == s2;
  }

  // ---------------------------------------------------------------------------------
  // The admin status field
  // ---------------------------------------------------------------------------------

  /** The request the admin form edits: its status, and whether it has been saved. */
  datatype Instance = Instance(status: Status, saved: bool)

  /** `xs` keeps some of the elements of `ys`, in the order `ys` lists them. */
  predicate Subsequence<T(==)>(xs: seq<T>, ys: seq<T>)
    decreases |ys|
  {
    if xs == [] then true
    else if ys == [] then false
    else (xs[0] == ys[0] && Subsequence(xs[1..], ys[1..])) || Subsequence(xs, ys[1..])
  }

  /** No element appears twice. */
  predicate Distinct<T(==)>(xs: seq<T>)
  {
    forall i, j :: 0 <= i < j < |xs| ==> xs[i] != xs[j]
  }

  /** The statuses of `candidates` that `s` may move to, in their order. */
  function AllowedFrom(s: Status, candidates: seq<Status>): (r: seq<Status>)
    ensures forall t :: t in r <==> t in candidates && t in Transitions(s)
    ensures |r| <= |candidates|
    decreases |candidates|
  {
    if candidates == [] then []
    else if candidates[0] in Transitions(s) then [candidates[0]] + AllowedFrom(s, candidates[1..])
    else AllowedFrom(s, candidates[1..])
  }

  /** The statuses offered keep the order of the candidates, and a list of candidates
      without repeats offers none twice. */
  lemma {:induction false} AllowedFromKeepsOrder(s: Status, candidates: seq<Status>)
    ensures Subsequence(AllowedFrom(s, candidates), candidates)
    ensures Distinct(candidates) ==> Distinct(AllowedFrom(s, candidates))
    decreases |candidates|
  {
    if candidates != [] {
      AllowedFromKeepsOrder(s, candidates[1..]);
      var r := AllowedFrom(s, candidates);
      var tail := AllowedFrom(s, candidates[1..]);
      if candidates[0] in Transitions(s) {
        assert r == [candidates[0]] + tail && r[1..] == tail;
        if Distinct(candidates) {
          forall i, j | 0 <= i < j < |r|
            ensures r[i] != r[j]
          {
            if i == 0 {
              assert r[j] == tail[j - 1] && tail[j - 1] in candidates[1..];
            } else {
              assert r[i] == tail[i - 1] && r[j] == tail[j - 1];
            }
          }
        }
      } else {
        assert r == tail;
        SubsequenceOfTail(r, candidates);
      }
    }
  }

  lemma SubsequenceOfTail(xs: seq<Status>, ys: seq<Status>)
    requires ys != [] && Subsequence(xs, ys[1..])
    ensures Subsequence(xs, ys)
  {
  }

  /** `DomainApplicationAdminForm`'s status choices: for a saved request, its current
      status followed by the statuses it may move to; otherwise every status. */
  function Choices(instance: Option<Instance>): (r: seq<Status>)
    ensures instance.None? || !instance.value.saved ==> r == Statuses
    ensures instance.Some? && instance.value.saved ==>
      |r| >= 1 && r[0] == instance.value.status
      && forall t :: t in r[1..] <==> t in Transitions(instance.value.status)
  {
    if instance.Some? && instance.value.saved then
      StatusesListsEachOnce(instance.value.status);
      [instance.value.status] + AllowedFrom(instance.value.status, Statuses)
    else Statuses
  }

  /** The (value, label) pairs of a list of choices. */
  function ChoicePairs(r: seq<Status>): (pairs: seq<(string, string)>)
    ensures |pairs| == |r|
    ensures forall i :: 0 <= i < |r| ==> pairs[i] == (StatusValue(r[i]), StatusLabel(r[i]))
  {
    seq(|r|, i requires 0 <= i < |r| => (StatusValue(r[i]), StatusLabel(r[i])))
  }

  /** A saved started request offers exactly started and submitted; a form without a
      request, or for an unsaved ineligible one, offers every status. */
  lemma ChoicesScenarios()
    ensures ChoicePairs(Choices(Some(Instance(Started, true)))) == [("started", "Started"), ("submitted", "Submitted")]
    ensures Choices(None) == Statuses
    ensures Choices(Some(Instance(Ineligible, false))) == Statuses
  {
    StartedMayOnlyBeSubmitted();
    assert ChoicePairs([Started, Submitted]) == [("started", "Started"), ("submitted", "Submitted")];
  }

  lemma StartedMayOnlyBeSubmitted()
    ensures Choices(Some(Instance(Started, true))) == [Started, Submitted]
  {
    var rest := Statuses[2..];
    assert Transitions(Started) == {Submitted};
    NoneAllowed(Started, rest);
    assert Statuses[1..][1..] == rest;
    assert AllowedFrom(Started, Statuses[1..]) == [Submitted];
    assert AllowedFrom(Started, Statuses) == [Submitted];
  }

  /** Candidates none of which may follow `s` leave no choice. */
  lemma {:induction false} NoneAllowed(s: Status, candidates: seq<Status>)
    requires forall i :: 0 <= i < |candidates| ==> candidates[i] !in Transitions(s)
    ensures AllowedFrom(s, candidates) == []
    decreases |candidates|
  {
    if candidates != [] {
      NoneAllowed(s, candidates[1..]);
    }
  }

  // ---------------------------------------------------------------------------------
  // Saving a request in the admin
  // ---------------------------------------------------------------------------------

  /** `User.status`: restricted, or not. */
  datatype UserStatus = Unrestricted | Restricted

  function UserStatusValue(u: UserStatus): Option<string> {
    if u == Restricted then Some("restricted") else None
  }

  class User {
    var status: UserStatus

    constructor(status: UserStatus)
      ensures this.status == status
    {
      this.status := status;
    }
  }

  /** An email handed to the mail service: its recipient and its notice. */
  datatype Email = Email(to: string, notice: Notice)

  /** The mail service's log of sent emails. */
  class Mailer {
    var sent: seq<Email>

    constructor()
      ensures sent == []
    {
      sent := [];
    }
  }

  /** The `Domain` and `DomainInformation` tables: the domains that exist, and those that
      have an information row. */
  class Tables {
    var domains: set<Domain>
    var informations: set<Domain>

    constructor()
      ensures domains == {} && informations == {}
    {
      domains := {};
      informations := {};
    }
  }

  /** A domain request. */
  class Application {
    const creator: User
    const requestedName: string
    const submitterEmail: string
    var status: Status
    var approvedDomain: Option<Domain>

    constructor(creator: User, requestedName: string, submitterEmail: string)
      ensures this.creator == creator && this.requestedName == requestedName
      ensures this.submitterEmail == submitterEmail
      ensures status == Started && approvedDomain == None
    {
      this.creator := creator;
      this.requestedName := requestedName;
      this.submitterEmail := submitterEmail;
      status := Started;
      approvedDomain := None;
    }

    /** A request has an approved domain exactly while it is approved; that domain is
        named as requested and exists with its information row. */
    predicate Valid(tables: Tables)
      reads this, tables
    {
      (approvedDomain.Some? <==> status == Approved)
      && (approvedDomain.Some? ==>
            approvedDomain.value.name == requestedName
            && approvedDomain.value in tables.domains
            && approvedDomain.value in tables.informations)
    }

    /** `Domain.is_active` for the approved domain, if there is one. */
    predicate DomainActive()
      reads this, if approvedDomain.Some? then {approvedDomain.value} else {}
    {
      approvedDomain.Some? && approvedDomain.value.state == Ready
    }

    /** `DomainApplicationAdmin.save_model` for an edited request whose status field now
        holds `target`. */
    method SaveModel(tables: Tables, mailer: Mailer, target: Status) returns (v: Verdict)
      requires Valid(tables)
      modifies this, creator, tables, mailer
      ensures v == Review(old(status), old(creator.status) == Restricted, old(DomainActive()), target)
      ensures Valid(tables)
      ensures status == (if v.Moved? then target else old(status))
      ensures creator.status == (if v.Moved? && v.restrict then Restricted else old(creator.status))
      ensures mailer.sent == old(mailer.sent)
        + (if v.Moved? && v.notice.Some? then [Email(submitterEmail, v.notice.value)] else [])
      ensures v.Moved? && v.unlink ==>
        approvedDomain == None
        && tables.domains == old(tables.domains) - {old(approvedDomain).value}
        && tables.informations == old(tables.informations) - {old(approvedDomain).value}
      ensures v.Moved? && v.link ==>
        approvedDomain.Some? && fresh(approvedDomain.value) && approvedDomain.value.state == Unknown
        && tables.domains == old(tables.domains) + {approvedDomain.value}
        && tables.informations == old(tables.informations) + {approvedDomain.value}
      ensures !(v.Moved? && (v.unlink || v.link)) ==>
        approvedDomain == old(approvedDomain) && tables.domains == old(tables.domains)
        && tables.informations == old(tables.informations)
    {
      var active := DomainActive();
      v := Review(status, creator.status == Restricted, active, target);
      if v.Moved? {
        if v.unlink {
          var d := approvedDomain.value;
          tables.domains := tables.domains - {d};
          tables.informations := tables.informations - {d};
          approvedDomain := None;
        }
        if v.link {
          var d := new Domain(requestedName);
          tables.domains := tables.domains + {d};
          tables.informations := tables.informations + {d};
          approvedDomain := Some(d);
        }
        if v.restrict {
          creator.status := Restricted;
        }
        if v.notice.Some? {
          mailer.sent := mailer.sent + [Email(submitterEmail, v.notice.value)];
        }
        status := target;
      }
    }
  }

  // ---------------------------------------------------------------------------------
  // The admin scenarios, run against the classes above
  // ---------------------------------------------------------------------------------

  /** A ready `city.gov` put on hold is removed with a success message; a second removal
      reports that it is already deleted. */
  method DeleteHeldDomainTwice(first: Reply, second: Reply) returns (m1: Message, m2: Message, state: DomainState)
    requires first.Accepted?
    ensures m1 == Message(Info, "Domain " + "city.gov" + " has been deleted. Thanks!")
    ensures m2 == Message(Info, "This domain is already deleted")
    ensures state == Deleted
  {
    var d := new Domain("city.gov");
    d.state := Ready;
    var held := d.PlaceClientHold(Accepted);
    assert d.state == OnHold;
    m1 := DoDeleteDomain(d, first);
    assert d.state == Deleted;
    m2 := DoDeleteDomain(d, second);
    state := d.state;
  }

  /** A fresh request whose creator is unrestricted and which has reached `status`
      without an approved domain. */
  method NewRequest(status: Status, tables: Tables) returns (app: Application)
    requires status != Approved
    ensures fresh(app) && fresh(app.creator) && app.Valid(tables)
    ensures app.status == status && app.creator.status == Unrestricted
    ensures app.requestedName == "city.gov" && app.submitterEmail == "mayor@igorville.gov"
  {
    var creator := new User(Unrestricted);
    app := new Application(creator, "city.gov", "mayor@igorville.gov");
    app.status := status;
  }

  /** Approving a request in review links a domain named as requested and notifies the
      submitter; declaring one ineligible restricts its creator. */
  method ApproveOrDecline(approve: bool) returns (v: Verdict, linkedName: Option<string>, creator: UserStatus, sent: seq<Email>)
    ensures approve ==> linkedName == Some("city.gov") && creator == Unrestricted
                        && sent == [Email("mayor@igorville.gov", ApprovedNotice)]
    ensures !approve ==> linkedName == None && creator == Restricted && sent == []
  {
    var tables := new Tables();
    var mailer := new Mailer();
    var app := NewRequest(InReview, tables);
    v := app.SaveModel(tables, mailer, if approve then Approved else Ineligible);
    linkedName := if app.approvedDomain.Some? then Some(app.approvedDomain.value.name) else None;
    creator := app.creator.status;
    sent := mailer.sent;
  }

  /** Saving a request whose creator is restricted, new (`change=False`) or edited, shows
      the restricted-creator error and leaves its status as it was. */
  method SaveForRestrictedCreator(target: Status) returns (v: Verdict, status: Status, sent: seq<Email>)
    ensures v == Blocked("This action is not permitted for applications with a restricted creator.")
    ensures status == InReview && sent == []
  {
    var tables := new Tables();
    var mailer := new Mailer();
    var app := NewRequest(InReview, tables);
    app.creator.status := Restricted;
    v := app.SaveModel(tables, mailer, target);
    status := app.status;
    sent := mailer.sent;
  }

  /** Moving an approved request back to review, action needed, rejected or ineligible:
      refused while its domain is active; otherwise the link is cleared and the domain
      and its information row are deleted. */
  method RevertApproval(active: bool, target: Status)
    returns (v: Verdict, linked: bool, domainExists: bool, informationExists: bool)
    requires target in {InReview, ActionNeeded, Rejected, Ineligible}
    ensures active ==> v == Blocked("This action is not permitted. The domain is already active.")
                       && linked && domainExists && informationExists
    ensures !active ==> v.Moved? && !linked && !domainExists && !informationExists
  {
    var tables := new Tables();
    var mailer := new Mailer();
    var app := NewRequest(InReview, tables);
    var d := new Domain(app.requestedName);
    d.state := if active then Ready else Unknown;
    tables.domains := {d};
    tables.informations := {d};
    app.approvedDomain := Some(d);
    app.status := Approved;
    v := app.SaveModel(tables, mailer, target);
    linked := app.approvedDomain.Some?;
    domainExists := d in tables.domains;
    informationExists := d in tables.informations;
  }
}
