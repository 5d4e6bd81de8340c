/**
 * The decisions `update_contract_status` and `update_contract` of app.py
 * take around a status change: which invitations are deleted, which
 * notification is sent and to whom, whether the comments are deleted, and
 * the reset of the status when the contract's text is substantively edited.
 */
module Effects {
  import opened Wrappers
  import opened Domain
  import opened Status
  import Invitations
  import StatusUpdate

  /** The notification types: 'editing', 'harmonization', 'signing',
      'archived'. */
  datatype NotificationType = NotifyEditing | NotifyHarmonization | NotifySigning | NotifyArchived

  /** The invitation type deleted after a status update, looked up by the
      final status name. */
  function PurgeAfterUpdate(final: Phase): Option<Invitations.InvitationType>
  {
    match final
    case Harmonization => Some(Invitations.Editing)
    case Harmonized => Some(Invitations.Harmonization)
    case Signed => Some(Invitations.Signing)
    case _ => None
  }

  /** The notification sent after a status update, looked up by the pair of
      initial and final status names. */
  function NotificationAfterUpdate(initial: Phase, final: Phase): Option<NotificationType>
  {
    if initial == Creating && final == Harmonization then Some(NotifyHarmonization)
    else if initial == Harmonization && final == Harmonized then Some(NotifySigning)
    else if initial == Signed && final == Archived then Some(NotifyArchived)
    else None
  }

  /** What a status update leaves to do besides storing the new status. */
  datatype UpdateEffects = UpdateEffects(
    purge: Option<Invitations.InvitationType>,
    notification: Option<NotificationType>,
    purgeComments: bool)

  function EffectsOf(action: Action, initial: Phase, final: Phase): UpdateEffects
  {
    UpdateEffects(PurgeAfterUpdate(final), NotificationAfterUpdate(initial, final), action == Harmonize)
  }

  function AsSet<T>(o: Option<T>): set<T>
  {
    if o.Some? then {o.value} else {}
  }

  /** When a status update advances the phase, the invitations deleted are
      exactly those of the types the invitation gate offered before the
      change and no longer offers after it. */
  lemma PurgeMatchesGate(action: Action, company: CompanyName, role: Role, s: StatusValue, targets: seq<Company>)
    requires CanRequest(action, company, s)
    ensures var r := Apply(action, company, role, s);
      r.name != s.name ==>
        AsSet(PurgeAfterUpdate(r.name))
          == Invitations.TypesFor(s.name, targets).Keys - Invitations.TypesFor(r.name, targets).Keys
  {
    var r := Apply(action, company, role, s);
    if r.name != s.name {
      StepIsMonotone(action, company, role, s);
      PurgeMatchesGateOnAdvance(s.name, targets);
    }
  }

  lemma PurgeMatchesGateOnAdvance(p: Phase, targets: seq<Company>)
    requires p != Archived
    ensures AsSet(PurgeAfterUpdate(Next(p)))
         == Invitations.TypesFor(p, targets).Keys - Invitations.TypesFor(Next(p), targets).Keys
  {
    Invitations.AllowedTypesPerStatus(targets);
    match p
    case Creating =>
      assert {Invitations.Editing, Invitations.Harmonization} - {Invitations.Harmonization} == {Invitations.Editing};
    case Harmonization =>
    case Harmonized =>
    case Signing =>
    case Signed =>
  }

  /** The purge depends on the final status alone: it happens even when the
      update left the status where it was. */
  lemma PurgeEvenWithoutChange(action: Action, company: CompanyName, role: Role, s: StatusValue)
    requires CanRequest(action, company, s)
    requires s.name == Harmonization
    requires Apply(action, company, role, s).name == s.name
    ensures EffectsOf(action, s.name, Apply(action, company, role, s).name).purge == Some(Invitations.Editing)
  {
  }

  /** A notification is sent for exactly three transitions of the state
      machine: the first Harmonize from creating, the Harmonize that
      completes harmonization, and the Archive; no Sign ever notifies. */
  lemma NotificationFollowsTransitions(action: Action, company: CompanyName, role: Role, s: StatusValue)
    requires CanRequest(action, company, s)
    ensures var r := Apply(action, company, role, s);
      var n := NotificationAfterUpdate(s.name, r.name);
      && (n.Some? ==> s.name != Archived && r.name == Next(s.name))
      && (n == Some(NotifyHarmonization) <==> action == Harmonize && s.name == Creating)
      && (n == Some(NotifySigning) <==> action == Harmonize && s.name == Harmonization && r.name == Harmonized)
      && (n == Some(NotifyArchived) <==> action == Archive && s.name == Signed)
      && (action == Sign ==> n.None?)
  {
    StepIsMonotone(action, company, role, s);
    if !ValidFrom(action, s.name) {
      InvalidActionIsNoOp(action, company, role, s);
    } else if IsEntry(s.name) {
      EntryPhaseAdvances(action, company, role, s);
    }
  }

  /** Comments are deleted after every Harmonize, whether or not the status
      changed, and after no other action. */
  lemma CommentsPurgedOnHarmonize(action: Action, initial: Phase, final: Phase)
    ensures EffectsOf(action, initial, final).purgeComments <==> action == Harmonize
  {
  }

  /** The ids of the contract's companies. */
  function CompanyIds(companies: seq<Company>): set<CompanyId>
  {
    set c | c in companies :: c.id
  }

  /** Who is told: for 'signing' the directors of the contract's companies,
      the actor included; otherwise every employee of those companies but
      the actor. */
  predicate Notified(kind: NotificationType, companyIds: set<CompanyId>, actorId: EmployeeId, e: Employee)
  {
    e.companyId in companyIds && if kind == NotifySigning then e.role == Director else e.id != actorId
  }

  /** The recipients, in the directory's order. */
  function RecipientsFor(kind: NotificationType, companyIds: set<CompanyId>, directory: seq<Employee>, actorId: EmployeeId)
    : (r: seq<Recipient>)
    ensures |r| <= |directory|
    ensures forall x :: x in r <==> exists e :: e in directory && Notified(kind, companyIds, actorId, e) && x == RecipientOf(e)
    decreases |directory|
  {
    if directory == [] then []
    else
      var init := directory[..|directory| - 1];
      var e := directory[|directory| - 1];
      var rest := RecipientsFor(kind, companyIds, init, actorId);
      assert forall x :: x in directory <==> x in init || x == e by {
        assert directory == init + [e];
      }
      if Notified(kind, companyIds, actorId, e) then rest + [RecipientOf(e)] else rest
  }

  /** The recipients keep the directory's order: the list for a directory
      is the lists for its parts one after the other. */
  lemma {:induction false} RecipientsForKeepsOrder(kind: NotificationType, companyIds: set<CompanyId>,
                                                   front: seq<Employee>, back: seq<Employee>, actorId: EmployeeId)
    ensures RecipientsFor(kind, companyIds, front + back, actorId)
         == RecipientsFor(kind, companyIds, front, actorId) + RecipientsFor(kind, companyIds, back, actorId)
    decreases |back|
  {
    if back == [] {
      assert front + back == front;
    } else {
      var whole := front + back;
      var init := back[..|back| - 1];
      var e := back[|back| - 1];
      assert whole[..|whole| - 1] == front + init && whole[|whole| - 1] == e;
      RecipientsForKeepsOrder(kind, companyIds, front, init, actorId);
      var tail := if Notified(kind, companyIds, actorId, e) then [RecipientOf(e)] else [];
      assert RecipientsFor(kind, companyIds, whole, actorId)
          == RecipientsFor(kind, companyIds, front + init, actorId) + tail;
      assert RecipientsFor(kind, companyIds, back, actorId)
          == RecipientsFor(kind, companyIds, init, actorId) + tail;
    }
  }

  /** One directory entry gives its recipient once when it qualifies and
      nothing otherwise, so no recipient is ever repeated for one entry. */
  lemma RecipientsForOne(kind: NotificationType, companyIds: set<CompanyId>, e: Employee, actorId: EmployeeId)
    ensures RecipientsFor(kind, companyIds, [e], actorId)
         == if Notified(kind, companyIds, actorId, e) then [RecipientOf(e)] else []
  {
    assert [e][..0] == [];
  }

  /** The recipient loop of `update_contract_status` over the employees of
      the contract's companies. */
  method NotificationRecipients(kind: NotificationType, contractCompanies: seq<Company>,
                                directory: seq<Employee>, actorId: EmployeeId)
    returns (recipients: seq<Recipient>)
    ensures recipients == RecipientsFor(kind, CompanyIds(contractCompanies), directory, actorId)
  {
    var companyIds := CompanyIds(contractCompanies);
    recipients := [];
    for i := 0 to |directory|
      invariant recipients == RecipientsFor(kind, companyIds, directory[..i], actorId)
    {
      assert directory[..i + 1][..i] == directory[..i];
      var employee := directory[i];
      if employee.companyId in companyIds {
        var recipient := RecipientOf(employee);
        if kind == NotifySigning {
          if employee.role == Director {
            recipients := recipients + [recipient];
          }
        } else if recipient.id != actorId {
          recipients := recipients + [recipient];
        }
      }
    }
    assert directory[..|directory|] == directory;
  }

  /** The handler `update_contract_status` around `update_status`: the new
      status, what else it does, and whom it notifies. */
  method UpdateContractStatus(action: Action, company: CompanyName, role: Role, actorId: EmployeeId,
                              status: StatusUpdate.ContractStatus, contractCompanies: seq<Company>,
                              directory: seq<Employee>)
    returns (updated: StatusUpdate.ContractStatus, effects: UpdateEffects, recipients: seq<Recipient>)
    requires CanRequest(action, company, StatusValue(status.name, status.companies.rows))
    modifies status.companies
    ensures StatusValue(updated.name, updated.companies.rows)
         == Apply(action, company, role, StatusValue(status.name, old(status.companies.rows)))
    ensures effects == EffectsOf(action, status.name, updated.name)
    ensures recipients == if effects.notification.Some?
      then RecipientsFor(effects.notification.value, CompanyIds(contractCompanies), directory, actorId)
      else []
  {
    var initial := status.name;
    updated := StatusUpdate.UpdateStatus(action, company, role, status);
    effects := EffectsOf(action, initial, updated.name);
    recipients := [];
    if effects.notification.Some? {
      recipients := NotificationRecipients(effects.notification.value, contractCompanies, directory, actorId);
    }
  }

  // ---------------------------------------------------------------------
  // update_contract

  /** The invitation type deleted when the text is substantively edited,
      looked up by the current status name. */
  function PurgeOnEdit(current: Phase): Option<Invitations.InvitationType>
  {
    match current
    case Harmonization => Some(Invitations.Harmonization)
    case Harmonized => Some(Invitations.Signing)
    case Signing => Some(Invitations.Signing)
    case _ => None
  }

  datatype EditEffects = EditEffects(
    purge: Option<Invitations.InvitationType>,
    purgeComments: bool,
    status: StatusValue)

  /** `update_contract`: a text-only edit leaves everything else alone; any
      other edit deletes comments and the invitations the table names, and
      restarts the approval from the initial status. */
  function ContractEditEffects(onlyText: bool, current: StatusValue, companies: seq<Company>): EditEffects
  {
    if onlyText then EditEffects(None, false, current)
    else EditEffects(PurgeOnEdit(current.name), true, InitialStatus(companies))
  }

  /** A substantive edit sends a contract in any phase, an archived one
      included, back to creating with every flag cleared: unlike a status
      update, it can move the phase backwards. */
  lemma EditRestartsApproval(current: StatusValue, companies: seq<Company>)
    ensures var e := ContractEditEffects(false, current, companies);
      && e.purgeComments
      && e.status.name == Creating
      && Index(e.status.name) <= Index(current.name)
      && (current.name != Creating ==> Index(e.status.name) < Index(current.name))
      && e.status.acceptance.Keys == NamesOf(companies)
      && WellFormed(e.status.acceptance)
      && forall c, k :: c in e.status.acceptance && k in e.status.acceptance[c] ==> !e.status.acceptance[c][k]
  {
    InitialStatusShape(companies);
  }

  /** A substantive edit deletes approval and signing invitations of the
      phases that have them, never editing invitations, and nothing before
      harmonization or after signing. */
  lemma EditPurgesApprovalInvitations(current: Phase)
    ensures PurgeOnEdit(current).Some? <==> current in {Harmonization, Harmonized, Signing}
    ensures PurgeOnEdit(current) != Some(Invitations.Editing)
    ensures PurgeOnEdit(current) == Some(Invitations.Signing) <==> current in {Harmonized, Signing}
  {
  }

  /** A text-only edit changes nothing of the workflow. */
  lemma TextOnlyEditKeepsStatus(current: StatusValue, companies: seq<Company>)
    ensures var e := ContractEditEffects(true, current, companies);
      e.status == current && e.purge.None? && !e.purgeComments
  {
  }
}
