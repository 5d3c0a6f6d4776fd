/** Role gates (rbac.middleware.js): `requireRole` admits a signed-in user
    whose role is listed, and three gates are built from it. */
module Rbac {

  import opened Common
  import Text

  /** What a gate does: run the next handler, answer 401, or answer 403 with
      a message naming the roles required and the user's role. */
  datatype Gate = Next | Unauthorized | Forbidden(message: string)

  /** `requireRole(...roles)` applied to a request whose user, if signed in,
      carries `role`. */
  function RequireRole(roles: seq<string>, role: Option<string>): (g: Gate)
    ensures role.None? ==> g == Unauthorized
    ensures role.Some? ==> (g == Next <==> role.value in roles)
    ensures role.Some? && role.value !in roles ==>
      g == Forbidden(Refusal(Text.Join(roles, " or "), role.value))
  {
    if role.None? then Unauthorized
    else if role.value !in roles then
      Forbidden(Refusal(Text.Join(roles, " or "), role.value))
    else Next
  }

  /** The 403 message: the required roles, then the user's role. */
  function Refusal(required: string, role: string): string
  {
    "Required: " + required + ". Your role: " + role
  }

  const AdminRoles: seq<string> := [RoleName(Admin)]
  const InstructorRoles: seq<string> := [RoleName(Instructor), RoleName(Admin)]
  const StudentRoles: seq<string> := [RoleName(Student), RoleName(Instructor), RoleName(Admin)]

  function RequireAdmin(role: Option<string>): Gate { RequireRole(AdminRoles, role) }
  function RequireInstructor(role: Option<string>): Gate { RequireRole(InstructorRoles, role) }
  function RequireStudent(role: Option<string>): Gate { RequireRole(StudentRoles, role) }

  /** The roles each gate admits. */
  lemma AdmittedSets(role: string)
    ensures RequireAdmin(Some(role)) == Next <==> role == "ADMIN"
    ensures RequireInstructor(Some(role)) == Next <==> role == "INSTRUCTOR" || role == "ADMIN"
    ensures RequireStudent(Some(role)) == Next <==> role == "STUDENT" || role == "INSTRUCTOR" || role == "ADMIN"
  {
  }

  /** Listing more roles never shuts anyone out. */
  lemma MoreRolesAdmitMore(roles: seq<string>, more: seq<string>, role: Option<string>)
    requires forall r :: r in roles ==> r in more
    ensures RequireRole(roles, role) == Next ==> RequireRole(more, role) == Next
  {
  }

  /** The three gates are nested: admin, then instructor, then student. */
  lemma GatesNested(role: Option<string>)
    ensures RequireAdmin(role) == Next ==> RequireInstructor(role) == Next
    ensures RequireInstructor(role) == Next ==> RequireStudent(role) == Next
  {
    MoreRolesAdmitMore(AdminRoles, InstructorRoles, role);
    MoreRolesAdmitMore(InstructorRoles, StudentRoles, role);
  }

  /** The required-roles text of the admin gate. */
  lemma AdminRolesText()
    ensures Text.Join(AdminRoles, " or ") == "ADMIN"
  {
  }

  /** The required-roles text of the instructor gate. */
  lemma InstructorRolesText()
    ensures Text.Join(InstructorRoles, " or ") == "INSTRUCTOR or ADMIN"
  {
    assert InstructorRoles[1..] == AdminRoles;
    AdminRolesText();
  }

  /** The 403 message of each gate. */
  lemma GateMessages(role: string)
    ensures RequireAdmin(Some(role)) != Next ==>
      RequireAdmin(Some(role)) == Forbidden(Refusal("ADMIN", role))
    ensures RequireInstructor(Some(role)) != Next ==>
      RequireInstructor(Some(role)) == Forbidden(Refusal("INSTRUCTOR or ADMIN", role))
  {
    AdminRolesText();
    InstructorRolesText();
  }
}
