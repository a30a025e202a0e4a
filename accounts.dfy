/** The user record shared by the session and the user administration screen. */
module Accounts {
  import opened Wrappers

  /** The admin login page, where the guard and logout both send the visitor. */
  const LoginPath := "/admin/login"

  datatype Role = Admin | Manager | Customer

  /** The role as the site spells it: "admin", "manager", "customer". */
  function RoleName(role: Role): string {
    match role
    case Admin => "admin"
    case Manager => "manager"
    case Customer => "customer"
  }

  /** A user id is a JavaScript number: an integer, or -Infinity, which is what
      `Math.max(...[]) + 1` gives when a user is created in an empty list. */
  datatype UserId = Id(n: int) | MinusInfinity

  datatype User = User(
    id: UserId, email: string, name: string, phone: Option<string>, role: Role,
    avatar: Option<string>, createdAt: string, lastLogin: Option<string>)
}
