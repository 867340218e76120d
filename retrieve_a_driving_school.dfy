/** `RetrieveADrivingSchoolUseCase`: any user looks a driving school up, and sees it as their role allows. */
module RetrieveADrivingSchool {
  import opened ErrorService
  import opened Errors
  import opened Users
  import opened Sequences
  import opened DrivingSchools
  import opened DrivingSchoolRepository
  import opened DrivingSchoolStrategy

  class RetrieveADrivingSchoolUseCase {
    const drivingSchoolRepository: InMemoryDrivingSchoolRepository

    constructor(drivingSchoolRepository: InMemoryDrivingSchoolRepository)
      ensures this.drivingSchoolRepository == drivingSchoolRepository
    {
      this.drivingSchoolRepository := drivingSchoolRepository;
    }

    /**
      `execute`: no role check; the first school with the id, shown in full
      to an administrator and through the restricted view to anyone else.
     */
    method Execute(drivingSchoolId: DrivingSchoolId, user: User) returns (r: Result<DrivingSchoolView, Error>)
      ensures Find(drivingSchoolRepository.storage.drivingSchools, SchoolHasId(drivingSchoolId)).None? ==>
                r == Err(ErrorNotFound)
      ensures Find(drivingSchoolRepository.storage.drivingSchools, SchoolHasId(drivingSchoolId)).Some? ==>
                var s := Find(drivingSchoolRepository.storage.drivingSchools, SchoolHasId(drivingSchoolId)).value;
                && s.id == drivingSchoolId
                && (user.Admin? ==> r == Ok(Full(s.Data())))
                && (!user.Admin? ==> r == Ok(Restricted(ForStudentView(s))))
    {
      var drivingSchool := drivingSchoolRepository.GetById(drivingSchoolId);
      if drivingSchool.None? {
        return Err(ErrorNotFound);
      }
      var transformer := CreateTransformer(user.Role());
      RoleDeterminesKind(user);
      r := Ok(Transform(transformer, drivingSchool.value));
    }
  }
}
