/** The closed enumeration of account roles. The module that defines it in
    the application is not part of this model: `Admin` is the role the
    application's tests and policy name, `Member` stands in for every other
    role. Every property of the model is stated over all roles. */
module UserRoles {
  import opened Values

  datatype Role = Admin | Member

  /** The string value of a role, as stored and as sent by clients. */
  function RoleName(r: Role): string
  {
    match r
    case Admin => "Admin"
    case Member => "Member"
  }

  /** `Object.values(UserRole)`: every role name, in declaration order. */
  const RoleValues: seq<string> := [RoleName(Admin), RoleName(Member)]

  /** The role a string names, if any. */
  function ParseRole(s: string): (r: Option<Role>)
    ensures r.Some? ==> RoleName(r.value) == s
    ensures r.None? ==> forall x: Role :: RoleName(x) != s
    ensures r.Some? <==> s in RoleValues
  {
    if s == "Admin" then Some(Admin)
    else if s == "Member" then Some(Member)
    else None
  }
}
