/**
 * The invitation gate: which companies a contract participant may invite,
 * for which purpose, in the contract's current status
 * (`get_invitation_variants` in app.py and
 * `remove_companies_from_invitation` in utils.py), and the invitations
 * `create_invitations` in app.py fans out to a company's employees.
 */
module Invitations {
  import opened Wrappers
  import opened Domain
  import Status

  /** The purpose of an invitation: 'editing', 'harmonization', 'signing'. */
  datatype InvitationType = Editing | Harmonization | Signing

  /** The `creator` and `recipient` records of an invitation. */
  datatype Party = Party(id: EmployeeId, name: string, companyId: CompanyId, companyName: CompanyName)

  /** An invitation document; `status` is 'pending' until the recipient
      answers. */
  datatype Invitation = Invitation(contractId: string, kind: InvitationType, status: string, creator: Party, recipient: Party)

  /** For each invitation type, the companies that may still be invited. */
  type Variants = map<InvitationType, seq<Company>>

  // ---------------------------------------------------------------------
  // remove_companies_from_invitation

  /** The index `companies_id.index(id)` returns, or |cs| when no company
      has that id. */
  function FirstIndexOf(cs: seq<Company>, id: CompanyId): (i: nat)
    ensures i <= |cs|
    ensures forall j :: 0 <= j < i ==> cs[j].id != id
    ensures i < |cs| ==> cs[i].id == id
    decreases |cs|
  {
    if cs == [] then 0
    else if cs[0].id == id then 0
    else 1 + FirstIndexOf(cs[1..], id)
  }

  /** One invitation's effect: the first company of its type's list whose
      id is the recipient's company id is popped. */
  function Withdraw(v: Variants, inv: Invitation): (r: Variants)
    requires inv.kind in v
    ensures r.Keys == v.Keys
  {
    var cs := v[inv.kind];
    var i := FirstIndexOf(cs, inv.recipient.companyId);
    if i < |cs| then v[inv.kind := cs[..i] + cs[i + 1..]] else v
  }

  predicate TypesKnown(v: Variants, invs: seq<Invitation>)
  {
    forall i :: 0 <= i < |invs| ==> invs[i].kind in v
  }

  /** The invitations' effects, in order. */
  function WithdrawAll(v: Variants, invs: seq<Invitation>): (r: Variants)
    requires TypesKnown(v, invs)
    ensures r.Keys == v.Keys
    decreases |invs|
  {
    if invs == [] then v
    else Withdraw(WithdrawAll(v, invs[..|invs| - 1]), invs[|invs| - 1])
  }

  /** The types whose lists became empty are dropped. */
  function DropEmpty(v: Variants): (r: Variants)
    ensures r.Keys == set t | t in v && v[t] != []
    ensures forall t :: t in r ==> r[t] == v[t]
  {
    map t | t in v && v[t] != [] :: v[t]
  }

  /** The result of `remove_companies_from_invitation`. */
  function FilteredVariants(v: Variants, invs: seq<Invitation>): Variants
    requires TypesKnown(v, invs)
  {
    DropEmpty(WithdrawAll(v, invs))
  }

  /** Some invitation of type `t` is addressed to company `id`. */
  predicate Addressed(invs: seq<Invitation>, t: InvitationType, id: CompanyId)
  {
    exists i :: 0 <= i < |invs| && invs[i].kind == t && invs[i].recipient.companyId == id
  }

  /** No two companies of the list share an id. */
  predicate DistinctIds(cs: seq<Company>)
  {
    forall i, j :: 0 <= i < j < |cs| ==> cs[i].id != cs[j].id
  }

  /** `remove_companies_from_invitation`, as the source runs it: pops from
      the lists and then deletes the emptied types. The dictionary it
      mutates is a fresh deep copy made by its only caller, so the model
      returns the new dictionary instead. */
  method RemoveCompaniesFromInvitation(variants: Variants, invitations: seq<Invitation>)
    returns (result: Variants)
    requires TypesKnown(variants, invitations)
    ensures result == FilteredVariants(variants, invitations)
  {
    result := variants;
    for n := 0 to |invitations|
      invariant result == WithdrawAll(variants, invitations[..n])
    {
      assert invitations[..n + 1][..n] == invitations[..n];
      var invitation := invitations[n];
      var companiesToInvite := result[invitation.kind];
      var i := IndexOfCompany(companiesToInvite, invitation.recipient.companyId);
      if i < |companiesToInvite| {
        result := result[invitation.kind := companiesToInvite[..i] + companiesToInvite[i + 1..]];
      }
    }
    assert invitations[..|invitations|] == invitations;
    result := DeleteEmptyTypes(result);
  }

  /** The position of the first company with the given id, or the list's
      length when there is none. */
  method IndexOfCompany(cs: seq<Company>, id: CompanyId) returns (i: nat)
    ensures i == FirstIndexOf(cs, id)
  {
    i := 0;
    while i < |cs| && cs[i].id != id
      invariant i <= |cs|
      invariant forall j :: 0 <= j < i ==> cs[j].id != id
    {
      i := i + 1;
    }
  }

  /** Deletes, one by one, the types whose lists are empty. */
  method DeleteEmptyTypes(v: Variants) returns (r: Variants)
    ensures r == DropEmpty(v)
  {
    r := v;
    var types := v.Keys;
    while types != {}
      invariant types <= v.Keys
      invariant r.Keys == (set t | t in v && (t in types || v[t] != []))
      invariant forall t :: t in r ==> r[t] == v[t]
      decreases types
    {
      var t :| t in types;
      if r[t] == [] {
        r := r - {t};
      }
      types := types - {t};
    }
  }

  // ---------------------------------------------------------------------
  // Properties of the filter

  /** Popping one element removes one copy of it from the multiset. */
  lemma PopMultiset(cs: seq<Company>, i: nat)
    requires i < |cs|
    ensures multiset(cs[..i] + cs[i + 1..]) == multiset(cs) - multiset{cs[i]}
  {
    assert cs == cs[..i] + [cs[i]] + cs[i + 1..];
  }

  /** Popping from a list with distinct ids keeps them distinct and leaves
      no company with the popped id. */
  lemma PopDistinct(cs: seq<Company>, i: nat)
    requires i < |cs| && DistinctIds(cs)
    ensures DistinctIds(cs[..i] + cs[i + 1..])
    ensures forall c: Company :: c.id == cs[i].id ==> c !in cs[..i] + cs[i + 1..]
  {
    var rest := cs[..i] + cs[i + 1..];
    forall a, b | 0 <= a < b < |rest|
      ensures rest[a].id != rest[b].id
    {
      var a' := if a < i then a else a + 1;
      var b' := if b < i then b else b + 1;
      assert rest[a] == cs[a'] && rest[b] == cs[b'];
    }
  }

  /** One withdrawal, seen from one type and one company: it only removes,
      and only a company with the addressed id. */
  lemma WithdrawCount(v: Variants, inv: Invitation, t: InvitationType, c: Company)
    requires inv.kind in v && t in v
    ensures var r := Withdraw(v, inv);
      && multiset(r[t])[c] <= multiset(v[t])[c]
      && ((t != inv.kind || c.id != inv.recipient.companyId) ==> multiset(r[t])[c] == multiset(v[t])[c])
  {
    var cs := v[inv.kind];
    var i := FirstIndexOf(cs, inv.recipient.companyId);
    var r := Withdraw(v, inv);
    if i < |cs| && t == inv.kind {
      assert r[t] == cs[..i] + cs[i + 1..];
      PopMultiset(cs, i);
      assert c.id != inv.recipient.companyId ==> c != cs[i];
    } else {
      assert r[t] == v[t];
    }
  }

  /** One withdrawal keeps a list's ids distinct and, when they are,
      removes the company with the addressed id. */
  lemma WithdrawDistinct(v: Variants, inv: Invitation, t: InvitationType, c: Company)
    requires inv.kind in v && t in v && DistinctIds(v[t])
    ensures var r := Withdraw(v, inv);
      && DistinctIds(r[t])
      && (t == inv.kind && c.id == inv.recipient.companyId ==> c !in r[t])
  {
    var cs := v[inv.kind];
    var i := FirstIndexOf(cs, inv.recipient.companyId);
    if t == inv.kind && i < |cs| {
      PopDistinct(cs, i);
    }
  }

  /** After all withdrawals a type's list never holds more copies of a
      company than before, and keeps every copy of a company that no
      invitation of that type addresses. */
  lemma {:induction false} WithdrawAllCount(v: Variants, invs: seq<Invitation>, t: InvitationType, c: Company)
    requires TypesKnown(v, invs) && t in v
    ensures var r := WithdrawAll(v, invs);
      && multiset(r[t])[c] <= multiset(v[t])[c]
      && (!Addressed(invs, t, c.id) ==> multiset(r[t])[c] == multiset(v[t])[c])
    decreases |invs|
  {
    if invs != [] {
      var prefix := invs[..|invs| - 1];
      var last := invs[|invs| - 1];
      assert TypesKnown(v, prefix);
      WithdrawAllCount(v, prefix, t, c);
      WithdrawCount(WithdrawAll(v, prefix), last, t, c);
      if !Addressed(invs, t, c.id) {
        assert !Addressed(prefix, t, c.id);
        assert t != last.kind || c.id != last.recipient.companyId;
      }
    }
  }

  /** When a type's companies have distinct ids, they stay distinct, and a
      company that an invitation of that type addresses is gone from the
      list. */
  lemma {:induction false} WithdrawAllRemovesAddressed(v: Variants, invs: seq<Invitation>, t: InvitationType, c: Company)
    requires TypesKnown(v, invs)
    requires t in v && DistinctIds(v[t])
    ensures var r := WithdrawAll(v, invs);
      && DistinctIds(r[t])
      && (Addressed(invs, t, c.id) ==> c !in r[t])
    decreases |invs|
  {
    if invs != [] {
      var prefix := invs[..|invs| - 1];
      var last := invs[|invs| - 1];
      assert TypesKnown(v, prefix);
      var mid := WithdrawAll(v, prefix);
      var r := WithdrawAll(v, invs);
      assert r == Withdraw(mid, last);
      WithdrawAllRemovesAddressed(v, prefix, t, c);
      WithdrawCount(mid, last, t, c);
      WithdrawDistinct(mid, last, t, c);
      if Addressed(invs, t, c.id) && !(last.kind == t && last.recipient.companyId == c.id) {
        assert Addressed(prefix, t, c.id) by {
          var i :| 0 <= i < |invs| && invs[i].kind == t && invs[i].recipient.companyId == c.id;
          assert prefix[i] == invs[i];
        }
        assert c !in mid[t];
        assert multiset(r[t])[c] <= multiset(mid[t])[c];
      }
    }
  }

  /** `remove_companies_from_invitation`, seen from one type and one
      company: it never adds a type or a company, leaves no type with an
      empty list, and keeps every copy of a company that no invitation of
      that type addresses. */
  lemma FilterRemovesOnlyAddressed(v: Variants, invs: seq<Invitation>, t: InvitationType, c: Company)
    requires TypesKnown(v, invs)
    ensures var r := FilteredVariants(v, invs);
      && (t in r ==> t in v && r[t] != [] && multiset(r[t])[c] <= multiset(v[t])[c])
      && (t in v && c in v[t] && !Addressed(invs, t, c.id) ==> t in r && multiset(r[t])[c] == multiset(v[t])[c])
  {
    if t in v {
      WithdrawAllCount(v, invs, t, c);
    }
  }

  /** With distinct company ids, every addressed company is removed. */
  lemma FilterRemovesAddressed(v: Variants, invs: seq<Invitation>, t: InvitationType, c: Company)
    requires TypesKnown(v, invs)
    requires t in v && DistinctIds(v[t]) && Addressed(invs, t, c.id)
    ensures var r := FilteredVariants(v, invs);
      !(t in r && c in r[t])
  {
    WithdrawAllRemovesAddressed(v, invs, t, c);
  }

  // ---------------------------------------------------------------------
  // get_invitation_variants

  /** The contract's companies other than the requester's, in order. */
  function CompaniesToInvite(companies: seq<Company>, requester: CompanyId): (r: seq<Company>)
    ensures forall c :: c in r <==> c in companies && c.id != requester
    ensures DistinctIds(companies) ==> DistinctIds(r)
    decreases |companies|
  {
    if companies == [] then []
    else
      var rest := CompaniesToInvite(companies[1..], requester);
      if companies[0].id != requester then
        assert DistinctIds(companies) ==> forall c :: c in rest ==> c in companies[1..] && c.id != companies[0].id;
        [companies[0]] + rest
      else rest
  }

  /** The eligible companies keep the contract's order: the list for a
      contract's companies is the lists for its parts one after the other. */
  lemma {:induction false} CompaniesToInviteKeepsOrder(front: seq<Company>, back: seq<Company>, requester: CompanyId)
    ensures CompaniesToInvite(front + back, requester)
         == CompaniesToInvite(front, requester) + CompaniesToInvite(back, requester)
    decreases |front|
  {
    if front == [] {
      assert front + back == back;
    } else {
      var whole := front + back;
      assert whole[0] == front[0] && whole[1..] == front[1..] + back;
      CompaniesToInviteKeepsOrder(front[1..], back, requester);
    }
  }

  /** The source's `types_map`: the invitation types each status allows,
      each offered to the same eligible companies. */
  function TypesFor(p: Status.Phase, targets: seq<Company>): (v: Variants)
    ensures forall t :: t in v ==> v[t] == targets
  {
    match p
    case Creating => map[Editing := targets, Harmonization := targets]
    case Harmonization => map[Harmonization := targets]
    case Harmonized => map[Signing := targets]
    case Signing => map[Signing := targets]
    case _ => map[]
  }

  /** The invitations the source queries: those of this contract whose type
      is one of the allowed ones, in stored order. */
  function QueriedInvitations(contractId: string, invitations: seq<Invitation>, types: set<InvitationType>): (r: seq<Invitation>)
    ensures forall inv :: inv in r <==> inv in invitations && inv.contractId == contractId && inv.kind in types
    decreases |invitations|
  {
    if invitations == [] then []
    else
      var rest := QueriedInvitations(contractId, invitations[1..], types);
      var inv := invitations[0];
      if inv.contractId == contractId && inv.kind in types then [inv] + rest else rest
  }

  /** `get_invitation_variants`: for each type the contract's status allows,
      the companies other than the requester's that no invitation of this
      contract and type addresses yet; types left without companies are
      dropped. */
  function InvitationVariants(contractId: string, p: Status.Phase, companies: seq<Company>,
                              requester: CompanyId, invitations: seq<Invitation>): Variants
  {
    var variants := TypesFor(p, CompaniesToInvite(companies, requester));
    if variants == map[] then map[]
    else
      var queried := QueriedInvitations(contractId, invitations, variants.Keys);
      QueryTypesKnown(contractId, invitations, variants);
      FilteredVariants(variants, queried)
  }

  /** Every queried invitation has one of the queried types. */
  lemma QueryTypesKnown(contractId: string, invitations: seq<Invitation>, variants: Variants)
    ensures TypesKnown(variants, QueriedInvitations(contractId, invitations, variants.Keys))
  {
    var queried := QueriedInvitations(contractId, invitations, variants.Keys);
    forall i | 0 <= i < |queried|
      ensures queried[i].kind in variants
    {
      assert queried[i] in queried;
    }
  }

  /** An invitation of this contract and type that addresses a company,
      whatever its creator or state. */
  predicate Outstanding(contractId: string, invitations: seq<Invitation>, t: InvitationType, id: CompanyId)
  {
    exists inv :: inv in invitations && inv.contractId == contractId && inv.kind == t && inv.recipient.companyId == id
  }

  /** For a queried type, the query addresses a company exactly when an
      invitation of this contract and type does. */
  lemma QueryAddresses(contractId: string, invitations: seq<Invitation>, types: set<InvitationType>,
                       t: InvitationType, id: CompanyId)
    requires t in types
    ensures Addressed(QueriedInvitations(contractId, invitations, types), t, id)
        <==> Outstanding(contractId, invitations, t, id)
  {
    var queried := QueriedInvitations(contractId, invitations, types);
    if Outstanding(contractId, invitations, t, id) {
      var inv :| inv in invitations && inv.contractId == contractId && inv.kind == t && inv.recipient.companyId == id;
      assert inv in queried;
      var i :| 0 <= i < |queried| && queried[i] == inv;
    }
    if Addressed(queried, t, id) {
      var i :| 0 <= i < |queried| && queried[i].kind == t && queried[i].recipient.companyId == id;
      assert queried[i] in queried;
    }
  }

  /** The status-to-types table of `get_invitation_variants`. */
  lemma AllowedTypesPerStatus(companies: seq<Company>)
    ensures TypesFor(Status.Creating, companies).Keys == {Editing, Harmonization}
    ensures TypesFor(Status.Harmonization, companies).Keys == {Harmonization}
    ensures TypesFor(Status.Harmonized, companies).Keys == {Signing}
    ensures TypesFor(Status.Signing, companies).Keys == {Signing}
    ensures TypesFor(Status.Signed, companies) == map[]
    ensures TypesFor(Status.Archived, companies) == map[]
  {
  }

  /** The gate only offers types the status allows, never an empty list,
      and only companies of the contract other than the requester's. */
  lemma GateOffersOnlyEligible(contractId: string, p: Status.Phase, companies: seq<Company>,
                               requester: CompanyId, invitations: seq<Invitation>)
    ensures var v := InvitationVariants(contractId, p, companies, requester, invitations);
      && v.Keys <= TypesFor(p, companies).Keys
      && forall t :: t in v ==> v[t] != [] && forall c :: c in v[t] ==> c in companies && c.id != requester
  {
    var variants := TypesFor(p, CompaniesToInvite(companies, requester));
    if variants != map[] {
      var queried := QueriedInvitations(contractId, invitations, variants.Keys);
      QueryTypesKnown(contractId, invitations, variants);
      var v := FilteredVariants(variants, queried);
      forall t, c | t in v && c in v[t]
        ensures c in variants[t]
      {
        FilterRemovesOnlyAddressed(variants, queried, t, c);
      }
      forall t | t in v
        ensures v[t] != []
      {
        FilterRemovesOnlyAddressed(variants, queried, t, Company("", ""));
      }
    }
  }

  /** The gate offers a company for a type exactly when the status allows
      the type, the company is not the requester's, and no invitation of
      this contract and type addresses it (for companies with distinct ids). */
  lemma GateOffersExactly(contractId: string, p: Status.Phase, companies: seq<Company>,
                          requester: CompanyId, invitations: seq<Invitation>, t: InvitationType, c: Company)
    requires DistinctIds(companies)
    ensures var v := InvitationVariants(contractId, p, companies, requester, invitations);
      (t in v && c in v[t]) <==>
        && t in TypesFor(p, companies)
        && c in companies && c.id != requester
        && !Outstanding(contractId, invitations, t, c.id)
  {
    var variants := TypesFor(p, CompaniesToInvite(companies, requester));
    if variants != map[] {
      var queried := QueriedInvitations(contractId, invitations, variants.Keys);
      QueryTypesKnown(contractId, invitations, variants);
      FilterRemovesOnlyAddressed(variants, queried, t, c);
      if t in variants {
        QueryAddresses(contractId, invitations, variants.Keys, t, c.id);
        if Outstanding(contractId, invitations, t, c.id) {
          FilterRemovesAddressed(variants, queried, t, c);
        }
      }
    }
  }

  /** The gate's exclusion example: a creating contract with companies A, B
      and C, requested by A, with a harmonization invitation already sent to
      B. B is no longer offered for harmonization but is still offered for
      editing. */
  lemma GateExclusionExample(inv: Invitation)
    requires inv.contractId == "k" && inv.kind == Harmonization && inv.recipient.companyId == "b"
    ensures var companies := [Company("a", "A"), Company("b", "B"), Company("c", "C")];
      var v := InvitationVariants("k", Status.Creating, companies, "a", [inv]);
      && Harmonization in v && Company("b", "B") !in v[Harmonization] && Company("c", "C") in v[Harmonization]
      && Editing in v && Company("b", "B") in v[Editing]
  {
    var companies := [Company("a", "A"), Company("b", "B"), Company("c", "C")];
    assert Outstanding("k", [inv], Harmonization, "b") by {
      assert inv in [inv];
    }
    GateOffersExactly("k", Status.Creating, companies, "a", [inv], Harmonization, Company("b", "B"));
    GateOffersExactly("k", Status.Creating, companies, "a", [inv], Harmonization, Company("c", "C"));
    GateOffersExactly("k", Status.Creating, companies, "a", [inv], Editing, Company("b", "B"));
  }

  // ---------------------------------------------------------------------
  // create_invitations

  /** The employees of a company, in the directory's order (the source's
      `find_documents` on `company_id`). */
  function EmployeesOf(directory: seq<Employee>, companyId: CompanyId): (r: seq<Employee>)
    ensures forall e :: e in r <==> e in directory && e.companyId == companyId
    decreases |directory|
  {
    if directory == [] then []
    else
      var rest := EmployeesOf(directory[1..], companyId);
      if directory[0].companyId == companyId then [directory[0]] + rest else rest
  }

  /** The query keeps every entry of the company as often as the directory
      holds it, and no other. */
  lemma {:induction false} EmployeesOfCounts(directory: seq<Employee>, companyId: CompanyId, e: Employee)
    ensures multiset(EmployeesOf(directory, companyId))[e]
         == if e.companyId == companyId then multiset(directory)[e] else 0
    decreases |directory|
  {
    if directory != [] {
      assert directory == [directory[0]] + directory[1..];
      EmployeesOfCounts(directory[1..], companyId, e);
    }
  }

  /** The query keeps the directory's order: querying two parts of a
      directory one after the other gives the query of the whole. */
  lemma {:induction false} EmployeesOfKeepsOrder(front: seq<Employee>, back: seq<Employee>, companyId: CompanyId)
    ensures EmployeesOf(front + back, companyId) == EmployeesOf(front, companyId) + EmployeesOf(back, companyId)
    decreases |front|
  {
    if front == [] {
      assert front + back == back;
    } else {
      var whole := front + back;
      assert whole[0] == front[0] && whole[1..] == front[1..] + back;
      EmployeesOfKeepsOrder(front[1..], back, companyId);
      var head := if front[0].companyId == companyId then [front[0]] else [];
      assert EmployeesOf(whole, companyId) == head + EmployeesOf(front[1..] + back, companyId);
      assert EmployeesOf(front, companyId) == head + EmployeesOf(front[1..], companyId);
    }
  }

  /** An employee who is a director of the company. */
  predicate DirectorOf(e: Employee, companyId: CompanyId)
  {
    e.companyId == companyId && e.role == Director
  }

  /** The first director of a company in the directory (the source's
      `find_one_document`), if any. */
  function FirstDirector(directory: seq<Employee>, companyId: CompanyId): (r: Option<Employee>)
    ensures r.Some? ==> r.value in directory && DirectorOf(r.value, companyId)
    ensures r.Some? ==>
      exists i :: 0 <= i < |directory| && directory[i] == r.value && forall j :: 0 <= j < i ==> !DirectorOf(directory[j], companyId)
    ensures r.None? ==> forall e :: e in directory ==> !DirectorOf(e, companyId)
    decreases |directory|
  {
    if directory == [] then None
    else if DirectorOf(directory[0], companyId) then
      Some(directory[0])
    else
      var r := FirstDirector(directory[1..], companyId);
      if r.None? then
        assert directory == [directory[0]] + directory[1..];
        r
      else
        var i :| 0 <= i < |directory[1..]| && directory[1..][i] == r.value &&
          forall j :: 0 <= j < i ==> !DirectorOf(directory[1..][j], companyId);
        assert directory[i + 1] == r.value;
        assert forall j :: 0 <= j < i + 1 ==> !DirectorOf(directory[j], companyId) by {
          forall j | 0 <= j < i + 1
            ensures !DirectorOf(directory[j], companyId)
          {
            if j > 0 {
              assert directory[j] == directory[1..][j - 1];
            }
          }
        }
        r
  }

  /** The invitation of `create_invitations` once its recipient is filled in. */
  function InvitationTo(contractId: string, kind: InvitationType, creator: Party, company: Company, e: Employee): Invitation
  {
    Invitation(contractId, kind, "pending", creator, Party(e.id, e.name, company.id, company.name))
  }

  /** Why `create_invitations` fails: a signing invitation to a company
      without a director (the source dereferences the missing employee). */
  datatype InviteError = NoDirector

  /** `create_invitations`: a signing invitation goes to the company's
      director alone; any other goes to every employee of the company, and
      an editing invitation also notifies each of them. */
  method CreateInvitations(contractId: string, kind: InvitationType, creator: Party,
                           company: Company, directory: seq<Employee>)
    returns (created: Result<seq<Invitation>, InviteError>, notified: seq<Recipient>)
    ensures kind == Signing ==>
      && notified == []
      && (created.Failure? <==> FirstDirector(directory, company.id).None?)
      && (created.Success? ==> created.value == [InvitationTo(contractId, kind, creator, company, FirstDirector(directory, company.id).value)])
    ensures kind != Signing ==>
      var employees := EmployeesOf(directory, company.id);
      && created.Success?
      && |created.value| == |employees|
      && (forall i :: 0 <= i < |employees| ==> created.value[i] == InvitationTo(contractId, kind, creator, company, employees[i]))
      && notified == (if kind == Editing then seq(|employees|, i requires 0 <= i < |employees| => RecipientOf(employees[i])) else [])
  {
    notified := [];
    if kind == Signing {
      var director := FirstDirector(directory, company.id);
      if director.None? {
        return Failure(NoDirector), [];
      }
      return Success([InvitationTo(contractId, kind, creator, company, director.value)]), [];
    }
    var invitations: seq<Invitation> := [];
    var recipients := EmployeesOf(directory, company.id);
    var notificationRecipients: seq<Recipient> := [];
    for i := 0 to |recipients|
      invariant |invitations| == i && |notificationRecipients| == i
      invariant forall j :: 0 <= j < i ==> invitations[j] == InvitationTo(contractId, kind, creator, company, recipients[j])
      invariant forall j :: 0 <= j < i ==> notificationRecipients[j] == RecipientOf(recipients[j])
    {
      var recipient := recipients[i];
      invitations := invitations + [InvitationTo(contractId, kind, creator, company, recipient)];
      notificationRecipients := notificationRecipients + [RecipientOf(recipient)];
    }
    created := Success(invitations);
    if kind == Editing {
      notified := notificationRecipients;
    }
  }

  /** Once the invitations `create_invitations` fans out to a company with
      employees are stored, the gate stops offering that company for that
      type. */
  lemma CreatedInvitationsCloseTheGate(contractId: string, p: Status.Phase, companies: seq<Company>,
                                       requester: CompanyId, invitations: seq<Invitation>,
                                       kind: InvitationType, creator: Party, company: Company, directory: seq<Employee>)
    requires DistinctIds(companies)
    requires kind == Signing ==> FirstDirector(directory, company.id).Some?
    requires kind != Signing ==> EmployeesOf(directory, company.id) != []
    ensures var e := if kind == Signing then FirstDirector(directory, company.id).value else EmployeesOf(directory, company.id)[0];
      var v := InvitationVariants(contractId, p, companies, requester,
                                  invitations + [InvitationTo(contractId, kind, creator, company, e)]);
      !(kind in v && company in v[kind])
  {
    var e := if kind == Signing then FirstDirector(directory, company.id).value else EmployeesOf(directory, company.id)[0];
    var all := invitations + [InvitationTo(contractId, kind, creator, company, e)];
    assert InvitationTo(contractId, kind, creator, company, e) in all;
    GateOffersExactly(contractId, p, companies, requester, all, kind, company);
  }
}
