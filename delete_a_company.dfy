/** `DeleteACompanyUseCase`: an administrator removes a company by id. */
module DeleteACompany {
  import opened ErrorService
  import opened Errors
  import opened Users
  import opened RoleService
  import opened Sequences
  import opened Companies
  import opened CompanyRepository

  /** `SuccesfullyDeletedACompany`: the success marker. */
  datatype SuccesfullyDeletedACompany = SuccesfullyDeletedACompany

  class DeleteACompanyUseCase {
    const companyRepository: InMemoryCompanyRepository

    constructor(companyRepository: InMemoryCompanyRepository)
      ensures this.companyRepository == companyRepository
    {
      this.companyRepository := companyRepository;
    }

    /** `execute`: the administrator check, then the deletion, with no check that the id is stored. */
    method Execute(currentUser: User, companyId: CompanyId) returns (r: Result<SuccesfullyDeletedACompany, Error>)
      modifies companyRepository.storage
      ensures !currentUser.Admin? ==> r == Err(ErrorNotAuthorizedToDeleteACompany) && unchanged(companyRepository.storage)
      ensures currentUser.Admin? ==>
                && r == Ok(SuccesfullyDeletedACompany)
                && companyRepository.storage.companies == Filter(old(companyRepository.storage.companies), LacksId(companyId))
      ensures companyRepository.storage.drivingSchools == old(companyRepository.storage.drivingSchools)
    {
      if !IsAdmin(currentUser) {
        return Err(ErrorNotAuthorizedToDeleteACompany);
      }
      companyRepository.Delete(companyId);
      r := Ok(SuccesfullyDeletedACompany);
    }
  }
}
