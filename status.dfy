/**
 * The contract status state machine of utils.py, as values: the phases,
 * the per-company, per-role acceptance matrix, and the transition that
 * `update_status` computes. StatusUpdate models the same transition as
 * the in-place update the source performs and proves it equal to Apply.
 */
module Status {
  import opened Domain

  /** The status names, in the order of the source's `statuses` list. */
  datatype Phase = Creating | Harmonization | Harmonized | Signing | Signed | Archived

  /** Position of a phase in the total order. */
  function Index(p: Phase): (i: nat)
    ensures i < 6
    ensures i == 0 <==> p == Creating
    ensures i == 5 <==> p == Archived
  {
    match p
    case Creating => 0
    case Harmonization => 1
    case Harmonized => 2
    case Signing => 3
    case Signed => 4
    case Archived => 5
  }

  /** The phase after `p`; Archived is terminal. */
  function Next(p: Phase): (q: Phase)
    requires p != Archived
    ensures Index(q) == Index(p) + 1
  {
    match p
    case Creating => Harmonization
    case Harmonization => Harmonized
    case Harmonized => Signing
    case Signing => Signed
    case Signed => Archived
  }

  /** The actions a user can request. */
  datatype Action = Harmonize | Sign | Archive

  /** The phases an action is valid from (the source's `actions_map`). */
  predicate ValidFrom(a: Action, p: Phase)
  {
    match a
    case Harmonize => p == Creating || p == Harmonization
    case Sign => p == Harmonized || p == Signing
    case Archive => p == Signed
  }

  /** Entry phases advance on one valid action. */
  predicate IsEntry(p: Phase)
  {
    p == Creating || p == Harmonized || p == Signed
  }

  /** Consensus phases advance only once every company approves. */
  predicate IsConsensus(p: Phase)
  {
    p == Harmonization || p == Signing
  }

  /** One company's acceptance flags, keyed by role. */
  type Row = map<Role, bool>

  /** The `companies` matrix of a status: company name to its row. */
  type Acceptance = map<CompanyName, Row>

  /** Every row holds exactly the three role keys. */
  predicate WellFormed(m: Acceptance)
  {
    forall c :: c in m ==> m[c].Keys == AllRoles
  }

  /** The row the source writes for a company with nothing accepted yet. */
  const FreshRow: Row := map[Lawyer := false, Economist := false, Director := false]

  /** Whether a company counts as approving in phase `p`: its director
      when signing, otherwise all of its roles. */
  predicate Approved(row: Row, p: Phase)
    requires Director in row
  {
    if p == Signing then row[Director] else forall r :: r in row ==> row[r]
  }

  predicate AllApproved(m: Acceptance, p: Phase)
    requires WellFormed(m)
  {
    forall c :: c in m ==> Approved(m[c], p)
  }

  /** Writes the acting company's role flag. */
  function Record(m: Acceptance, company: CompanyName, role: Role): (r: Acceptance)
    requires WellFormed(m) && company in m
    ensures WellFormed(r) && r.Keys == m.Keys
    ensures forall c, k :: c in m && k in m[c] ==> r[c][k] == (m[c][k] || (c == company && k == role))
  {
    assert role in AllRoles by { RoleInAllRoles(role); }
    m[company := m[company][role := true]]
  }

  /** The flag of one company and role in a well-formed matrix. */
  function Flag(m: Acceptance, company: CompanyName, role: Role): bool
    requires WellFormed(m) && company in m
  {
    RoleInAllRoles(role);
    m[company][role]
  }

  /** A row with the same role keys, all false. */
  function ClearedRow(row: Row): Row
  {
    map k | k in row :: false
  }

  /** Every flag of every company set back to false, keys kept. */
  function Reset(m: Acceptance): (r: Acceptance)
    ensures r.Keys == m.Keys
    ensures forall c :: c in r ==> r[c].Keys == m[c].Keys && forall k :: k in r[c] ==> !r[c][k]
  {
    map c | c in m :: ClearedRow(m[c])
  }

  /** A contract status as a value: its name and its acceptance matrix. */
  datatype StatusValue = StatusValue(name: Phase, acceptance: Acceptance)

  /** A status whose matrix covers the acting company and is well formed. */
  predicate CanAct(s: StatusValue, company: CompanyName)
  {
    WellFormed(s.acceptance) && company in s.acceptance
  }

  /** What `update_status` needs of a request: a well-formed matrix, and
      the acting company in it once the action is valid, since only then is
      its row looked up. */
  predicate CanRequest(action: Action, company: CompanyName, s: StatusValue)
  {
    WellFormed(s.acceptance) && (ValidFrom(action, s.name) ==> company in s.acceptance)
  }

  /** The status `update_status` produces for one request. */
  function Apply(action: Action, company: CompanyName, role: Role, s: StatusValue): (r: StatusValue)
    requires CanRequest(action, company, s)
    ensures WellFormed(r.acceptance) && r.acceptance.Keys == s.acceptance.Keys
  {
    if !ValidFrom(action, s.name) then s
    else
      var m := Record(s.acceptance, company, role);
      if IsEntry(s.name) then StatusValue(Next(s.name), m)
      else if AllApproved(m, s.name) then StatusValue(Next(s.name), Reset(m))
      else StatusValue(s.name, m)
  }

  /** The status `create_initial_status` builds for a contract's companies. */
  function InitialStatus(companies: seq<Company>): StatusValue
  {
    StatusValue(Creating, map c | c in NamesOf(companies) :: FreshRow)
  }

  function NamesOf(companies: seq<Company>): set<CompanyName>
  {
    set c | c in companies :: c.name
  }

  // ---------------------------------------------------------------------
  // Properties of a single transition

  /** An action invalid for the current phase changes nothing. */
  lemma InvalidActionIsNoOp(action: Action, company: CompanyName, role: Role, s: StatusValue)
    requires WellFormed(s.acceptance)
    requires !ValidFrom(action, s.name)
    ensures Apply(action, company, role, s) == s
  {
  }

  /** The acting flag is true afterwards unless a consensus phase advanced
      and so reset every flag. */
  lemma ActingFlagRecorded(action: Action, company: CompanyName, role: Role, s: StatusValue)
    requires CanAct(s, company)
    requires ValidFrom(action, s.name)
    ensures var r := Apply(action, company, role, s);
      r.acceptance[company][role] <==> !(IsConsensus(s.name) && r.name != s.name)
  {
    var m := Record(s.acceptance, company, role);
    RoleInAllRoles(role);
    assert m[company][role];
    if IsConsensus(s.name) {
      ConsensusStep(action, company, role, s);
    }
  }

  /** From an entry phase the name advances to the next phase and the flags
      are carried forward, not reset. */
  lemma EntryPhaseAdvances(action: Action, company: CompanyName, role: Role, s: StatusValue)
    requires CanAct(s, company)
    requires ValidFrom(action, s.name) && IsEntry(s.name)
    ensures var r := Apply(action, company, role, s);
      && r.name == Next(s.name)
      && forall c, k :: c in s.acceptance && k in AllRoles ==>
           r.acceptance[c][k] == (s.acceptance[c][k] || (c == company && k == role))
  {
  }

  /** In a consensus phase a valid call advances exactly when every company
      approves once the acting flag is written. */
  lemma ConsensusStep(action: Action, company: CompanyName, role: Role, s: StatusValue)
    requires CanAct(s, company)
    requires ValidFrom(action, s.name) && IsConsensus(s.name)
    ensures var m := Record(s.acceptance, company, role);
      Apply(action, company, role, s) ==
        if AllApproved(m, s.name) then StatusValue(Next(s.name), Reset(m)) else StatusValue(s.name, m)
  {
  }

  /** All three roles of every company accepted, counting the acting flag. */
  lemma HarmonizationApproval(m: Acceptance, company: CompanyName, role: Role)
    requires WellFormed(m) && company in m
    ensures AllApproved(Record(m, company, role), Harmonization) <==>
      forall c, k :: c in m && k in AllRoles ==> m[c][k] || (c == company && k == role)
  {
    var r := Record(m, company, role);
    if forall c, k :: c in m && k in AllRoles ==> m[c][k] || (c == company && k == role) {
      forall c | c in r
        ensures Approved(r[c], Harmonization)
      {
        forall k | k in r[c]
          ensures r[c][k]
        {
          assert k in AllRoles;
        }
      }
    } else {
      var c, k :| c in m && k in AllRoles && !(m[c][k] || (c == company && k == role));
      assert !r[c][k];
      assert !Approved(r[c], Harmonization);
    }
  }

  /** Every company's director signed, counting the acting flag. */
  lemma SigningApproval(m: Acceptance, company: CompanyName, role: Role)
    requires WellFormed(m) && company in m
    ensures AllApproved(Record(m, company, role), Signing) <==>
      forall c :: c in m ==> m[c][Director] || (c == company && role == Director)
  {
    var r := Record(m, company, role);
    if forall c :: c in m ==> m[c][Director] || (c == company && role == Director) {
      forall c | c in r
        ensures Approved(r[c], Signing)
      {
        assert r[c][Director];
      }
    } else {
      var c :| c in m && !(m[c][Director] || (c == company && role == Director));
      assert !r[c][Director];
      assert !Approved(r[c], Signing);
    }
  }

  /** Harmonization advances exactly when, counting the acting flag, every
      role of every company has accepted. */
  lemma HarmonizationGate(company: CompanyName, role: Role, s: StatusValue)
    requires CanAct(s, company) && s.name == Harmonization
    ensures var r := Apply(Harmonize, company, role, s);
      && (r.name == Harmonized || r.name == Harmonization)
      && (r.name == Harmonized <==>
            forall c, k :: c in s.acceptance && k in AllRoles ==>
              s.acceptance[c][k] || (c == company && k == role))
  {
    ConsensusStep(Harmonize, company, role, s);
    HarmonizationApproval(s.acceptance, company, role);
  }

  /** Signing advances exactly when, counting the acting flag, every
      company's director has signed; other roles never count. */
  lemma SigningGate(company: CompanyName, role: Role, s: StatusValue)
    requires CanAct(s, company) && s.name == Signing
    ensures var r := Apply(Sign, company, role, s);
      && (r.name == Signed || r.name == Signing)
      && (r.name == Signed <==>
            forall c :: c in s.acceptance ==>
              s.acceptance[c][Director] || (c == company && role == Director))
  {
    ConsensusStep(Sign, company, role, s);
    SigningApproval(s.acceptance, company, role);
  }

  /** When a consensus phase advances, every flag of every company is false
      and the company and role keys are those of the input. */
  lemma ConsensusAdvanceResets(action: Action, company: CompanyName, role: Role, s: StatusValue)
    requires CanRequest(action, company, s)
    requires IsConsensus(s.name)
    ensures var r := Apply(action, company, role, s);
      r.name != s.name ==>
        && r.acceptance.Keys == s.acceptance.Keys
        && forall c :: c in r.acceptance ==> r.acceptance[c].Keys == AllRoles && forall k :: k in AllRoles ==> !r.acceptance[c][k]
  {
  }

  /** The flags are reset by exactly the transitions that leave a consensus
      phase; every other call keeps every flag that was already set, and a
      valid one sets the acting flag and changes no other. */
  lemma ResetOnlyOnConsensusAdvance(action: Action, company: CompanyName, role: Role, s: StatusValue)
    requires CanRequest(action, company, s)
    ensures var r := Apply(action, company, role, s);
      !(IsConsensus(s.name) && r.name != s.name) ==>
        forall c, k :: c in s.acceptance && k in AllRoles && s.acceptance[c][k] ==> r.acceptance[c][k]
    ensures var r := Apply(action, company, role, s);
      ValidFrom(action, s.name) && !(IsConsensus(s.name) && r.name != s.name) ==>
        forall c, k :: c in s.acceptance && k in AllRoles ==>
          r.acceptance[c][k] == (s.acceptance[c][k] || (c == company && k == role))
  {
    if ValidFrom(action, s.name) && IsConsensus(s.name) {
      ConsensusStep(action, company, role, s);
    }
  }

  /** The name never moves back and moves at most one phase forward, and
      only for a valid action. */
  lemma StepIsMonotone(action: Action, company: CompanyName, role: Role, s: StatusValue)
    requires CanRequest(action, company, s)
    ensures var r := Apply(action, company, role, s);
      && (r.name == s.name || r.name == Next(s.name))
      && Index(s.name) <= Index(r.name) <= Index(s.name) + 1
      && (r.name != s.name ==> ValidFrom(action, s.name))
  {
  }

  /** Exactly one action is valid from each phase but Archived. */
  lemma OneActionPerPhase(a: Action, b: Action, p: Phase)
    requires ValidFrom(a, p) && ValidFrom(b, p)
    ensures a == b && p != Archived
  {
  }

  /** `create_initial_status`: name 'creating' and, for each company name,
      exactly the three roles, all false. */
  lemma InitialStatusShape(companies: seq<Company>)
    ensures var s := InitialStatus(companies);
      && s.name == Creating
      && WellFormed(s.acceptance)
      && s.acceptance.Keys == NamesOf(companies)
      && forall c, k :: c in s.acceptance && k in AllRoles ==> !s.acceptance[c][k]
  {
  }

  // ---------------------------------------------------------------------
  // Runs of several requests

  /** One request: who acts and with which action. */
  datatype Call = Call(company: CompanyName, role: Role, action: Action)

  /** Every call's company is one of the contract's. */
  predicate Participates(calls: seq<Call>, m: Acceptance)
  {
    forall i :: 0 <= i < |calls| ==> calls[i].company in m
  }

  /** Every call of the run, in the status the earlier calls leave, is one
      `update_status` can serve: its company is looked up only when its
      action is valid at that point. */
  predicate Admissible(s: StatusValue, calls: seq<Call>)
    requires WellFormed(s.acceptance)
    decreases |calls|
  {
    calls == [] ||
      (CanRequest(calls[0].action, calls[0].company, s) &&
       Admissible(Apply(calls[0].action, calls[0].company, calls[0].role, s), calls[1..]))
  }

  /** The status after the calls, in order. */
  function Run(s: StatusValue, calls: seq<Call>): (r: StatusValue)
    requires WellFormed(s.acceptance) && Admissible(s, calls)
    ensures WellFormed(r.acceptance) && r.acceptance.Keys == s.acceptance.Keys
    decreases |calls|
  {
    if calls == [] then s
    else
      var t := Apply(calls[0].action, calls[0].company, calls[0].role, s);
      Run(t, calls[1..])
  }

  /** A run by the contract's own companies can always be served, whatever
      the actions: the company keys never change along the run. */
  lemma {:induction false} ParticipantsAreAdmissible(s: StatusValue, calls: seq<Call>)
    requires WellFormed(s.acceptance) && Participates(calls, s.acceptance)
    ensures Admissible(s, calls)
    decreases |calls|
  {
    if calls != [] {
      var t := Apply(calls[0].action, calls[0].company, calls[0].role, s);
      assert Participates(calls[1..], t.acceptance) by {
        forall i | 0 <= i < |calls[1..]|
          ensures calls[1..][i].company in t.acceptance
        {
          assert calls[1..][i] == calls[i + 1];
        }
      }
      ParticipantsAreAdmissible(t, calls[1..]);
    }
  }

  /** Over any run the phase never decreases and advances by at most one
      phase per call. */
  lemma {:induction false} RunIsMonotone(s: StatusValue, calls: seq<Call>)
    requires WellFormed(s.acceptance) && Admissible(s, calls)
    ensures Index(s.name) <= Index(Run(s, calls).name) <= Index(s.name) + |calls|
    decreases |calls|
  {
    if calls != [] {
      var t := Apply(calls[0].action, calls[0].company, calls[0].role, s);
      StepIsMonotone(calls[0].action, calls[0].company, calls[0].role, s);
      RunIsMonotone(t, calls[1..]);
    }
  }

  /** A run of calls none of which is valid from the current phase can be
      served whoever makes them, and leaves the status exactly as it was. */
  lemma {:induction false} RunKeepsInvalidActionsInert(s: StatusValue, calls: seq<Call>)
    requires WellFormed(s.acceptance)
    requires forall i :: 0 <= i < |calls| ==> !ValidFrom(calls[i].action, s.name)
    ensures Admissible(s, calls) && Run(s, calls) == s
    decreases |calls|
  {
    if calls != [] {
      InvalidActionIsNoOp(calls[0].action, calls[0].company, calls[0].role, s);
      assert forall i :: 0 <= i < |calls[1..]| ==> calls[1..][i] == calls[i + 1];
      RunKeepsInvalidActionsInert(s, calls[1..]);
    }
  }

  /** A row given by its three flags. */
  function RowOf(lawyer: bool, economist: bool, director: bool): Row
  {
    map[Lawyer := lawyer, Economist := economist, Director := director]
  }

  /** One harmonization call that leaves some other flag pending: the name
      stays and the acting flag is written. */
  lemma PendingHarmonizeStep(company: CompanyName, role: Role, s: StatusValue, c: CompanyName, k: Role)
    requires CanAct(s, company) && s.name == Harmonization
    requires c in s.acceptance && !s.acceptance[c][k] && (c != company || k != role)
    ensures Apply(Harmonize, company, role, s) == StatusValue(Harmonization, Record(s.acceptance, company, role))
  {
    RoleInAllRoles(k);
    HarmonizationGate(company, role, s);
    ConsensusStep(Harmonize, company, role, s);
  }

  /** Writing one flag of a row given by its three flags. */
  lemma SetFlag(lawyer: bool, economist: bool, director: bool, role: Role)
    ensures RowOf(lawyer, economist, director)[role := true]
         == RowOf(lawyer || role == Lawyer, economist || role == Economist, director || role == Director)
  {
  }

  /** The matrix of a contract between companies "A" and "B". */
  function PairOf(a: Row, b: Row): Acceptance
  {
    map["A" := a, "B" := b]
  }

  lemma ScenarioStart()
    ensures Apply(Harmonize, "A", Lawyer, InitialStatus([Company("1", "A"), Company("2", "B")]))
         == StatusValue(Harmonization, PairOf(RowOf(true, false, false), RowOf(false, false, false)))
  {
    var s0 := InitialStatus([Company("1", "A"), Company("2", "B")]);
    assert NamesOf([Company("1", "A"), Company("2", "B")]) == {"A", "B"};
    assert s0.acceptance == PairOf(RowOf(false, false, false), RowOf(false, false, false));
    assert RowOf(false, false, false)[Lawyer := true] == RowOf(true, false, false);
  }

  lemma ScenarioPendingA(role: Role, a: Row, a': Row)
    requires a.Keys == AllRoles && a' == a[role := true]
    ensures Apply(Harmonize, "A", role, StatusValue(Harmonization, PairOf(a, RowOf(false, false, false))))
         == StatusValue(Harmonization, PairOf(a', RowOf(false, false, false)))
  {
    var s := StatusValue(Harmonization, PairOf(a, RowOf(false, false, false)));
    PendingHarmonizeStep("A", role, s, "B", Lawyer);
  }

  lemma ScenarioPendingB(role: Role, b: Row, b': Row, k: Role)
    requires b.Keys == AllRoles && b' == b[role := true] && !b[k] && k != role
    ensures Apply(Harmonize, "B", role, StatusValue(Harmonization, PairOf(RowOf(true, true, true), b)))
         == StatusValue(Harmonization, PairOf(RowOf(true, true, true), b'))
  {
    var s := StatusValue(Harmonization, PairOf(RowOf(true, true, true), b));
    PendingHarmonizeStep("B", role, s, "B", k);
  }

  lemma ScenarioLast()
    ensures var r := Apply(Harmonize, "B", Director, StatusValue(Harmonization, PairOf(RowOf(true, true, true), RowOf(true, true, false))));
      && r.name == Harmonized
      && forall c, k :: c in r.acceptance && k in AllRoles ==> !r.acceptance[c][k]
  {
    var s := StatusValue(Harmonization, PairOf(RowOf(true, true, true), RowOf(true, true, false)));
    var m := Record(s.acceptance, "B", Director);
    assert RowOf(true, true, false)[Director := true] == RowOf(true, true, true);
    assert m == PairOf(RowOf(true, true, true), RowOf(true, true, true));
    forall c | c in m
      ensures Approved(m[c], Harmonization)
    {
      assert m[c] == RowOf(true, true, true);
    }
    ConsensusStep(Harmonize, "B", Director, s);
  }

  /** The end-to-end harmonization scenario, first half: companies A and B
      with three roles each. A's lawyer starts harmonization, and that flag
      is carried into the harmonization phase; A's economist and director
      accept next, and the phase stays Harmonization while B has accepted
      nothing. */
  lemma HarmonizationScenarioFirstHalf()
    ensures var s0 := InitialStatus([Company("1", "A"), Company("2", "B")]);
      var s1 := Apply(Harmonize, "A", Lawyer, s0);
      var s2 := Apply(Harmonize, "A", Economist, s1);
      var s3 := Apply(Harmonize, "A", Director, s2);
      && s1.name == Harmonization && s1.acceptance["A"][Lawyer]
      && s2.name == Harmonization
      && s3 == StatusValue(Harmonization, PairOf(RowOf(true, true, true), RowOf(false, false, false)))
  {
    var s0 := InitialStatus([Company("1", "A"), Company("2", "B")]);
    var none := RowOf(false, false, false);
    var s1 := Apply(Harmonize, "A", Lawyer, s0);
    assert s1 == StatusValue(Harmonization, PairOf(RowOf(true, false, false), none)) by {
      ScenarioStart();
    }
    var s2 := Apply(Harmonize, "A", Economist, s1);
    assert s2 == StatusValue(Harmonization, PairOf(RowOf(true, true, false), none)) by {
      SetFlag(true, false, false, Economist);
      ScenarioPendingA(Economist, RowOf(true, false, false), RowOf(true, true, false));
    }
    SetFlag(true, true, false, Director);
    ScenarioPendingA(Director, RowOf(true, true, false), RowOf(true, true, true));
  }

  /** The scenario's second half: B's lawyer and economist accept and the
      phase stays Harmonization; B's director's acceptance, the last one
      pending, reaches Harmonized and resets every flag. */
  lemma HarmonizationScenarioSecondHalf()
    ensures var s3 := StatusValue(Harmonization, PairOf(RowOf(true, true, true), RowOf(false, false, false)));
      var s4 := Apply(Harmonize, "B", Lawyer, s3);
      var s5 := Apply(Harmonize, "B", Economist, s4);
      var s6 := Apply(Harmonize, "B", Director, s5);
      && s4.name == Harmonization && s5.name == Harmonization
      && s6.name == Harmonized
      && forall c, k :: c in s6.acceptance && k in AllRoles ==> !s6.acceptance[c][k]
  {
    var s3 := StatusValue(Harmonization, PairOf(RowOf(true, true, true), RowOf(false, false, false)));
    var s4 := Apply(Harmonize, "B", Lawyer, s3);
    assert s4 == StatusValue(Harmonization, PairOf(RowOf(true, true, true), RowOf(true, false, false))) by {
      SetFlag(false, false, false, Lawyer);
      ScenarioPendingB(Lawyer, RowOf(false, false, false), RowOf(true, false, false), Economist);
    }
    var s5 := Apply(Harmonize, "B", Economist, s4);
    assert s5 == StatusValue(Harmonization, PairOf(RowOf(true, true, true), RowOf(true, true, false))) by {
      SetFlag(true, false, false, Economist);
      ScenarioPendingB(Economist, RowOf(true, false, false), RowOf(true, true, false), Director);
    }
    ScenarioLast();
  }
}
