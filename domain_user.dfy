/** The domain enums for users: roles (role-based authorisation) and account status (soft delete). */
module Domain {
  import opened Wrappers
  import opened Numeric

  datatype Role = Admin | User | Everyone
  {
    /** The stored code of the role. */
    function Code(): (c: byte)
      ensures c == 1 || c == 2 || c == 99
    {
      match this
      case Admin => 1
      case User => 2
      case Everyone => 99
    }

    /** The enum member's name, as Enum.ToString writes it and as the role claim carries it. */
    function Name(): (n: string)
      ensures |n| > 0
    {
      match this
      case Admin => "Admin"
      case User => "User"
      case Everyone => "Everyone"
    }
  }

  datatype AccountStatus = Active | Inactive
  {
    function Code(): (c: byte)
      ensures c == 1 || c == 2
    {
      match this
      case Active => 2
      case Inactive => 1
    }

    function Name(): (n: string)
      ensures |n| > 0
    {
      match this
      case Active => "Active"
      case Inactive => "Inactive"
    }
  }

  /** The role a stored code stands for; None for a code no member has. */
  function RoleFromCode(c: int): (r: Option<Role>)
    ensures r.Some? ==> r.value.Code() == c
  {
    if c == 1 then Some(Admin)
    else if c == 2 then Some(User)
    else if c == 99 then Some(Everyone)
    else None
  }

  function AccountStatusFromCode(c: int): (r: Option<AccountStatus>)
    ensures r.Some? ==> r.value.Code() == c
  {
    if c == 2 then Some(Active)
    else if c == 1 then Some(Inactive)
    else None
  }

  /** The role with a given name; None for any other string. */
  function RoleFromName(n: string): (r: Option<Role>)
    ensures r.Some? ==> r.value.Name() == n
  {
    if n == "Admin" then Some(Admin)
    else if n == "User" then Some(User)
    else if n == "Everyone" then Some(Everyone)
    else None
  }

  /** Codes and names identify roles: each maps back to the role it came from. */
  lemma RoleRoundTrip(r: Role)
    ensures RoleFromCode(r.Code() as int) == Some(r)
    ensures RoleFromName(r.Name()) == Some(r)
  {
  }

  lemma RoleCodeInjective(a: Role, b: Role)
    ensures a.Code() == b.Code() <==> a == b
    ensures a.Name() == b.Name() <==> a == b
  {
    RoleRoundTrip(a);
    RoleRoundTrip(b);
  }

  lemma AccountStatusRoundTrip(s: AccountStatus)
    ensures AccountStatusFromCode(s.Code() as int) == Some(s)
  {
  }

  lemma AccountStatusCodeInjective(a: AccountStatus, b: AccountStatus)
    ensures a.Code() == b.Code() <==> a == b
    ensures a.Name() == b.Name() <==> a == b
  {
    AccountStatusRoundTrip(a);
    AccountStatusRoundTrip(b);
  }
}
