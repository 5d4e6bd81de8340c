/**
 * Entities shared by the whole workflow: the three employee roles,
 * the companies taking part in a contract and the employees of the
 * company directory.
 */
module Domain {

  /** The roles an employee can hold; the source spells them
      'lawyer', 'economist' and 'director'. */
  datatype Role = Lawyer | Economist | Director

  const AllRoles: set<Role> := {Lawyer, Economist, Director}

  lemma RoleInAllRoles(r: Role)
    ensures r in AllRoles
  {
  }

  type CompanyId = string
  type CompanyName = string
  type EmployeeId = string

  /** A company as listed in a contract's `companies` field. */
  datatype Company = Company(id: CompanyId, name: CompanyName)

  /** An employee document; its role is the role its `role_id` refers to. */
  datatype Employee = Employee(id: EmployeeId, name: string, email: string, companyId: CompanyId, role: Role)

  /** The `{'id', 'email'}` record handed to the notification sender. */
  datatype Recipient = Recipient(id: EmployeeId, email: string)

  function RecipientOf(e: Employee): Recipient
  {
    Recipient(e.id, e.email)
  }
}
