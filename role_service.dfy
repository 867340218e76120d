/** `UserRoles`: the five role names. */
module UserRoles {
  const ADMIN: string := "admin"
  const DIRECTOR: string := "director"
  const EXECUTIVE: string := "executive"
  const INSTRUCTOR: string := "instructor"
  const STUDENT: string := "student"

  /** The `UserRole` type: the values of `UserRoles`. */
  const AllRoles: set<string> := {ADMIN, DIRECTOR, EXECUTIVE, INSTRUCTOR, STUDENT}

  type UserRole = r: string | r in AllRoles witness ADMIN

  /** The enumeration holds five distinct roles. */
  lemma FiveRoles()
    ensures |AllRoles| == 5
    ensures forall r :: r in AllRoles <==> r in ["admin", "director", "executive", "instructor", "student"]
  {
    assert ADMIN != DIRECTOR && ADMIN != EXECUTIVE && ADMIN != INSTRUCTOR && ADMIN != STUDENT;
    assert DIRECTOR != EXECUTIVE && DIRECTOR != INSTRUCTOR && DIRECTOR != STUDENT;
    assert EXECUTIVE != INSTRUCTOR && EXECUTIVE != STUDENT && INSTRUCTOR != STUDENT;
  }
}

/** `RoleService`: the authorization tests on a user's role. */
module RoleService {
  import opened UserRoles
  import opened Users

  /** `isAdmin`: a role test that is also a type guard for `Admin`. */
  function IsAdmin(u: User): (b: bool)
    ensures b <==> u.Admin?
  {
    RoleDeterminesKind(u);
    u.Role() == ADMIN
  }

  /** `isDirector`: a role test that is also a type guard for `Director`. */
  function IsDirector(u: User): (b: bool)
    ensures b <==> u.Director?
  {
    RoleDeterminesKind(u);
    u.Role() == DIRECTOR
  }

  /** `isAdminOrDirector`: a type guard for `Admin | Director`. */
  function IsAdminOrDirector(u: User): (b: bool)
    ensures b <==> IsAdmin(u) || IsDirector(u)
    ensures b <==> u.Admin? || u.Director?
  {
    RoleDeterminesKind(u);
    u.Role() == ADMIN || u.Role() == DIRECTOR
  }

  /** A user claiming a role outside the enumeration, such as "blabla", is neither admin nor director. */
  lemma UnlistedIsNeither(u: User)
    requires u.Role() !in AllRoles
    ensures !IsAdmin(u) && !IsDirector(u) && !IsAdminOrDirector(u)
  {
  }
}
