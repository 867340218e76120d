/** `RetrieveDrivingSchoolsOfACompanyUseCase`: the driving schools of a company, for an administrator or its director. */
module RetrieveDrivingSchoolsOfACompany {
  import opened ErrorService
  import opened Errors
  import opened Users
  import opened RoleService
  import opened Sequences
  import opened Companies
  import opened DrivingSchools
  import opened CompanyRepository

  class RetrieveDrivingSchoolsOfACompanyUseCase {
    const companyRepository: InMemoryCompanyRepository

    constructor(companyRepository: InMemoryCompanyRepository)
      ensures this.companyRepository == companyRepository
    {
      this.companyRepository := companyRepository;
    }

    /**
      `execute`: the role check, then the stored schools of the argument's
      company for an administrator and of their own company for a director.
     */
    method Execute(user: User, companyId: CompanyId) returns (r: Result<seq<DrivingSchool>, Error>)
      ensures !(user.Admin? || user.Director?) ==> r == Err(ErrorNotAuthorizedToRetrieveDrivingSchoolsOfACompany)
      ensures user.Admin? ==> r == Ok(Filter(companyRepository.storage.drivingSchools, BelongsTo(companyId)))
      ensures user.Director? ==> r == Ok(Filter(companyRepository.storage.drivingSchools, BelongsTo(user.relatedCompany)))
      ensures r.Ok? ==> IsSubsequence(r.value, companyRepository.storage.drivingSchools)
    {
      if !IsAdminOrDirector(user) {
        return Err(ErrorNotAuthorizedToRetrieveDrivingSchoolsOfACompany);
      }
      var userCompanyId := if IsAdmin(user) then companyId else user.Data().relatedCompany.value;
      var drivingSchools := companyRepository.GetDrivingSchoolsOfACompany(userCompanyId);
      FilterIsSubsequence(companyRepository.storage.drivingSchools, BelongsTo(userCompanyId));
      r := Ok(drivingSchools);
    }
  }
}
