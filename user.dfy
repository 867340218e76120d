/**
  The users: an administrator, a director, an executive, an instructor or a
  student, each with its role fixed at construction, plus any object that
  reaches a use case carrying a role outside that enumeration.
 */
module Users {
  import opened ErrorService
  import opened UserRoles

  /** A role string that none of the five user kinds carries. */
  type OtherRole = r: string | r !in AllRoles witness "other"

  /** The plain record `data` returns; `relatedCompany` only for the kinds tied to a company. */
  datatype UserData = UserData(
    id: string,
    name: string,
    email: string,
    password: string,
    role: string,
    relatedCompany: Option<string>)

  /**
    One constructor per concrete user class; its `make` is the constructor.
    `Unlisted` stands for an object typed as a user whose role is none of
    the five.
   */
  datatype User =
    | Admin(id: string, name: string, email: string, password: string)
    | Director(id: string, name: string, email: string, password: string, relatedCompany: string)
    | Executive(id: string, name: string, email: string, password: string, relatedCompany: string)
    | Instructor(id: string, name: string, email: string, password: string, relatedCompany: string)
    | Student(id: string, name: string, email: string, password: string)
    | Unlisted(id: string, name: string, email: string, password: string, otherRole: OtherRole)
  {
    /** The `role` getter: fixed by the kind of user. */
    function Role(): string {
      match this
      case Admin(_, _, _, _) => ADMIN
      case Director(_, _, _, _, _) => DIRECTOR
      case Executive(_, _, _, _, _) => EXECUTIVE
      case Instructor(_, _, _, _, _) => INSTRUCTOR
      case Student(_, _, _, _) => STUDENT
      case Unlisted(_, _, _, _, r) => r
    }

    /** Whether this kind of user is tied to a company. */
    predicate HasCompany() {
      Director? || Executive? || Instructor?
    }

    /** The `data` getter of each class. */
    function Data(): UserData {
      UserData(id, name, email, password, Role(),
               if HasCompany() then Some(relatedCompany) else None)
    }
  }

  /** The role tells the kinds apart: each of the five kinds carries its own role, an unlisted user none of them. */
  lemma RoleDeterminesKind(u: User)
    ensures u.Role() in AllRoles <==> !u.Unlisted?
    ensures u.Role() == ADMIN <==> u.Admin?
    ensures u.Role() == DIRECTOR <==> u.Director?
    ensures u.Role() == EXECUTIVE <==> u.Executive?
    ensures u.Role() == INSTRUCTOR <==> u.Instructor?
    ensures u.Role() == STUDENT <==> u.Student?
  {
  }

  /** `data` keeps everything: two users with the same data are the same user. */
  lemma DataInjective(u1: User, u2: User)
    requires u1.Data() == u2.Data()
    ensures u1 == u2
  {
    RoleDeterminesKind(u1);
    RoleDeterminesKind(u2);
  }

  /** `Admin.make`: role "admin", and `data` gives back the four fields unchanged, without a company. */
  lemma AdminData(id: string, name: string, email: string, password: string)
    ensures Admin(id, name, email, password).Role() == "admin"
    ensures Admin(id, name, email, password).Data() == UserData(id, name, email, password, "admin", None)
  {
  }

  /** `Director.make`: role "director"; the getter and `data` both give back the related company. */
  lemma DirectorData(id: string, name: string, email: string, password: string, company: string)
    ensures Director(id, name, email, password, company).Role() == "director"
    ensures Director(id, name, email, password, company).relatedCompany == company
    ensures Director(id, name, email, password, company).Data()
         == UserData(id, name, email, password, "director", Some(company))
  {
  }

  /** `Executive.make` and `Instructor.make`: their roles, and the related company in `data`. */
  lemma ExecutiveAndInstructorData(id: string, name: string, email: string, password: string, company: string)
    ensures Executive(id, name, email, password, company).Data()
         == UserData(id, name, email, password, "executive", Some(company))
    ensures Instructor(id, name, email, password, company).Data()
         == UserData(id, name, email, password, "instructor", Some(company))
  {
  }

  /** `Student.make`: role "student", and `data` has no related company. */
  lemma StudentData(id: string, name: string, email: string, password: string)
    ensures Student(id, name, email, password).Role() == "student"
    ensures Student(id, name, email, password).Data() == UserData(id, name, email, password, "student", None)
  {
  }
}
