/**
  `DrivingSchoolTransformerStrategy`: what a driving school looks like to the
  user who retrieves it. An administrator sees the whole record; every other
  role sees a restricted view without the company, fingerprint or timestamps.
 */
module DrivingSchoolStrategy {
  import opened Address
  import opened UserRoles
  import opened DrivingSchools

  /** The two transformers `createTransformer` chooses between. */
  datatype Transformer = ForAdmin | ForStudent

  /** `DrivingSchoolForStudent`: the six public fields. */
  datatype DrivingSchoolForStudent = DrivingSchoolForStudent(
    id: string,
    name: string,
    phone: string,
    email: string,
    address: Address,
    openingHours: OpeningHours)

  /** What a transformer returns: the full record or the restricted view. */
  datatype DrivingSchoolView =
    | Full(data: DrivingSchoolData)
    | Restricted(view: DrivingSchoolForStudent)

  /** `createTransformer`: the admin transformer for the admin role, the student transformer for every other role. */
  function CreateTransformer(userRole: string): (t: Transformer)
    ensures t == ForAdmin <==> userRole == "admin"
  {
    if userRole == ADMIN then ForAdmin else ForStudent
  }

  /** `DrivingSchoolTransformerForStudent.transform`. */
  function ForStudentView(s: DrivingSchool): (r: DrivingSchoolForStudent)
    ensures r.id == s.id && r.name == s.Data().name && r.phone == s.Data().phone
    ensures r.email == s.Data().email && r.address == s.Data().address && r.openingHours == s.Data().openingHours
  {
    var d := s.Data();
    DrivingSchoolForStudent(s.id, d.name, d.phone, d.email, d.address, d.openingHours)
  }

  /** `transform` of the chosen transformer; the admin one returns `data` as it is. */
  function Transform(t: Transformer, s: DrivingSchool): (v: DrivingSchoolView)
    ensures v.Full? <==> t == ForAdmin
    ensures t == ForAdmin ==> v == Full(s.Data())
    ensures t == ForStudent ==> v == Restricted(ForStudentView(s))
  {
    match t
    case ForAdmin => Full(s.Data())
    case ForStudent => Restricted(ForStudentView(s))
  }

  /** Two records agree on the six fields the restricted view shows. */
  ghost predicate SamePublicFields(a: DrivingSchoolData, b: DrivingSchoolData) {
    && a.id == b.id
    && a.name == b.name
    && a.phone == b.phone
    && a.email == b.email
    && a.address == b.address
    && a.openingHours == b.openingHours
  }

  /** The restricted view shows exactly the public fields: two schools look alike in it exactly when those fields agree. */
  lemma StudentViewShowsExactlyPublicFields(s1: DrivingSchool, s2: DrivingSchool)
    ensures ForStudentView(s1) == ForStudentView(s2) <==> SamePublicFields(s1.Data(), s2.Data())
  {
  }

  /** The restricted view hides the company, the fingerprint and both timestamps: changing them changes nothing in it. */
  lemma StudentViewHidesPrivateFields(s: DrivingSchool, companyId: string, fingerPrint: string, createdAt: int, updatedAt: int)
    ensures ForStudentView(s.(companyId := companyId, fingerPrint := fingerPrint, createdAt := createdAt, updatedAt := updatedAt))
         == ForStudentView(s)
  {
  }

  /** The full view loses nothing: two schools look alike in it only when they are the same school. */
  lemma AdminViewIsFaithful(s1: DrivingSchool, s2: DrivingSchool)
    ensures Transform(ForAdmin, s1) == Transform(ForAdmin, s2) <==> s1 == s2
  {
    if Transform(ForAdmin, s1) == Transform(ForAdmin, s2) {
      DataInjective(s1, s2);
    }
  }
}
