/**
 * `update_status` and `create_initial_status` of utils.py as the source
 * runs them. A status is a record whose `companies` entry refers to a
 * mutable acceptance table: `update_status` copies the record shallowly,
 * so its writes to the table are seen through the caller's status too.
 */
module StatusUpdate {
  import opened Domain
  import opened Status

  /** The nested `companies` dictionary of a status, shared by every
      shallow copy of the status. */
  class AcceptanceTable {
    var rows: Acceptance

    constructor (rows: Acceptance)
      ensures this.rows == rows
    {
      this.rows := rows;
    }
  }

  /** The status dictionary: a name and a reference to its table. */
  datatype ContractStatus = ContractStatus(name: Phase, companies: AcceptanceTable)

  /** Whether every company approves in phase `p`: the loop that returns
      early at the first company that does not. */
  method ConsensusReached(table: AcceptanceTable, p: Phase) returns (reached: bool)
    requires WellFormed(table.rows)
    ensures reached == AllApproved(table.rows, p)
  {
    var pending := table.rows.Keys;
    while pending != {}
      invariant pending <= table.rows.Keys
      invariant forall c :: c in table.rows && c !in pending ==> Approved(table.rows[c], p)
      decreases pending
    {
      var company :| company in pending;
      var roles := table.rows[company];
      var acceptance := if p == Signing then roles[Director] else forall k :: k in roles ==> roles[k];
      if !acceptance {
        return false;
      }
      pending := pending - {company};
    }
    return true;
  }

  /** Sets every flag of every company in the table to false, in place. */
  method ResetTable(table: AcceptanceTable)
    modifies table
    ensures table.rows == Reset(old(table.rows))
  {
    ghost var before := table.rows;
    var remaining := table.rows.Keys;
    while remaining != {}
      invariant remaining <= before.Keys && table.rows.Keys == before.Keys
      invariant forall c :: c in before && c !in remaining ==> table.rows[c] == ClearedRow(before[c])
      invariant forall c :: c in remaining ==> table.rows[c] == before[c]
      decreases remaining
    {
      var company :| company in remaining;
      var roles := table.rows[company];
      table.rows := table.rows[company := map k | k in roles :: false];
      remaining := remaining - {company};
    }
  }

  /** `update_status`: the returned status is the new one; the caller's
      status keeps its name but shares the updated table. */
  method UpdateStatus(action: Action, company: CompanyName, role: Role, status: ContractStatus)
    returns (updated: ContractStatus)
    requires CanRequest(action, company, StatusValue(status.name, status.companies.rows))
    modifies status.companies
    ensures updated.companies == status.companies
    ensures StatusValue(updated.name, updated.companies.rows)
         == Apply(action, company, role, StatusValue(status.name, old(status.companies.rows)))
    ensures !ValidFrom(action, status.name) ==> updated == status && unchanged(status.companies)
  {
    if !ValidFrom(action, status.name) {
      return status;
    }
    updated := status;
    var table := updated.companies;
    table.rows := table.rows[company := table.rows[company][role := true]];
    assert table.rows == Record(old(table.rows), company, role);
    if IsEntry(status.name) {
      updated := updated.(name := Next(status.name));
      return;
    }
    var reached := ConsensusReached(table, status.name);
    if !reached {
      return;
    }
    updated := updated.(name := Next(status.name));
    ResetTable(table);
  }

  /** `create_initial_status`: one all-false row per company name. */
  method CreateInitialStatus(companies: seq<Company>) returns (s: StatusValue)
    ensures s.name == Creating
    ensures s.acceptance.Keys == NamesOf(companies)
    ensures forall c :: c in s.acceptance ==> s.acceptance[c].Keys == AllRoles
    ensures forall c, k :: c in s.acceptance && k in s.acceptance[c] ==> !s.acceptance[c][k]
    ensures s == InitialStatus(companies)
  {
    var companiesMap: Acceptance := map[];
    for i := 0 to |companies|
      invariant companiesMap.Keys == set j | 0 <= j < i :: companies[j].name
      invariant forall c :: c in companiesMap ==> companiesMap[c] == FreshRow
    {
      companiesMap := companiesMap[companies[i].name := map[Lawyer := false, Economist := false, Director := false]];
    }
    s := StatusValue(Creating, companiesMap);
  }
}
