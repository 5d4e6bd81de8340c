/**
 * `define_action_on_status_and_acceptances` of utils.py: for one viewer,
 * the action the contract page offers, and for consensus phases a
 * per-company acceptance summary.
 */
module Projection {
  import opened Wrappers
  import opened Domain
  import opened Status

  /** The action the source's `actions_map` names for a status; none for
      an archived contract. */
  function ActionOnStatus(p: Phase): (a: Option<Action>)
    ensures a.Some? <==> p != Archived
    ensures a.Some? ==> ValidFrom(a.value, p)
  {
    match p
    case Creating => Some(Harmonize)
    case Harmonization => Some(Harmonize)
    case Harmonized => Some(Sign)
    case Signing => Some(Sign)
    case Signed => Some(Archive)
    case Archived => None
  }

  /** The action offered to a viewer: the phase's action, withheld when the
      viewer's own flag is already set, or when a non-director looks at a
      harmonized or signing contract. */
  function OfferedAction(company: CompanyName, role: Role, s: StatusValue): (a: Option<Action>)
    requires CanAct(s, company)
    ensures a.Some? ==> ValidFrom(a.value, s.name)
    ensures a.Some? <==>
      && s.name != Archived
      && !Flag(s.acceptance, company, role)
      && !((s.name == Harmonized || s.name == Signing) && role != Director)
  {
    var action := ActionOnStatus(s.name);
    if Flag(s.acceptance, company, role) || ((s.name == Harmonized || s.name == Signing) && role != Director) then None
    else action
  }

  /** The label shown for one company. */
  datatype Label = HarmonizedLabel | SignedLabel | Pending

  /** The per-company summary: present only in the two consensus phases,
      where each company is labelled approved or pending exactly as the
      state machine decides approval. */
  function CompanyAcceptances(s: StatusValue): (summary: map<CompanyName, Label>)
    requires WellFormed(s.acceptance)
    ensures summary.Keys == if IsConsensus(s.name) then s.acceptance.Keys else {}
    ensures forall c :: c in summary ==>
      (summary[c] != Pending <==> Approved(s.acceptance[c], s.name))
      && (summary[c] == HarmonizedLabel <==> s.name == Harmonization && Approved(s.acceptance[c], s.name))
      && (summary[c] == SignedLabel <==> s.name == Signing && Approved(s.acceptance[c], s.name))
  {
    if !IsConsensus(s.name) then map[]
    else
      var accepted := if s.name == Harmonization then HarmonizedLabel else SignedLabel;
      map c | c in s.acceptance :: if Approved(s.acceptance[c], s.name) then accepted else Pending
  }

  /** The projection as the source computes it: the offered action and the
      summary, built by a loop over the companies. */
  method DefineActionOnStatusAndAcceptances(company: CompanyName, role: Role, s: StatusValue)
    returns (action: Option<Action>, acceptances: map<CompanyName, Label>)
    requires CanAct(s, company)
    ensures action == OfferedAction(company, role, s)
    ensures acceptances == CompanyAcceptances(s)
  {
    action := ActionOnStatus(s.name);
    var sameRoleAcceptance := Flag(s.acceptance, company, role);
    if sameRoleAcceptance || ((s.name == Harmonized || s.name == Signing) && role != Director) {
      action := None;
    }
    acceptances := map[];
    if IsConsensus(s.name) {
      var acceptName := if s.name == Harmonization then HarmonizedLabel else SignedLabel;
      var remaining := s.acceptance.Keys;
      while remaining != {}
        invariant remaining <= s.acceptance.Keys
        invariant acceptances.Keys == s.acceptance.Keys - remaining
        invariant forall c :: c in acceptances ==>
          acceptances[c] == if Approved(s.acceptance[c], s.name) then acceptName else Pending
        decreases remaining
      {
        var c :| c in remaining;
        var rolesAcceptance := s.acceptance[c];
        var acceptance := if s.name == Signing then rolesAcceptance[Director] else forall k :: k in rolesAcceptance ==> rolesAcceptance[k];
        acceptances := acceptances[c := if acceptance then acceptName else Pending];
        remaining := remaining - {c};
      }
    }
  }

  /** An offered action is never a no-op: taking it writes the viewer's
      flag, which was not set, or advances the phase. */
  lemma OfferedActionTakesEffect(company: CompanyName, role: Role, s: StatusValue)
    requires CanAct(s, company)
    requires OfferedAction(company, role, s).Some?
    ensures Apply(OfferedAction(company, role, s).value, company, role, s) != s
  {
    var a := OfferedAction(company, role, s).value;
    var r := Apply(a, company, role, s);
    if r.name == s.name {
      ActingFlagRecorded(a, company, role, s);
      assert Flag(r.acceptance, company, role) != Flag(s.acceptance, company, role);
    }
  }

  /** In a consensus phase the next valid call advances exactly when, with
      the caller's flag written, the summary labels every company approved. */
  lemma SummaryPredictsAdvance(action: Action, company: CompanyName, role: Role, s: StatusValue)
    requires CanAct(s, company)
    requires ValidFrom(action, s.name) && IsConsensus(s.name)
    ensures var summary := CompanyAcceptances(StatusValue(s.name, Record(s.acceptance, company, role)));
      Apply(action, company, role, s).name != s.name <==> Pending !in summary.Values
  {
    var m := Record(s.acceptance, company, role);
    var summary := CompanyAcceptances(StatusValue(s.name, m));
    ConsensusStep(action, company, role, s);
    if AllApproved(m, s.name) {
      forall v | v in summary.Values
        ensures v != Pending
      {
        var c :| c in summary && summary[c] == v;
      }
    } else {
      var c :| c in m && !Approved(m[c], s.name);
      assert summary[c] == Pending;
    }
  }
}
