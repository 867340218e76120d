/** `RetrieveACompanyUseCase`: an administrator looks a company up by id. */
module RetrieveACompany {
  import opened ErrorService
  import opened Errors
  import opened Users
  import opened RoleService
  import opened Companies
  import opened CompanyRepository

  class RetrieveACompanyUseCase {
    const companyRepository: InMemoryCompanyRepository

    constructor(companyRepository: InMemoryCompanyRepository)
      ensures this.companyRepository == companyRepository
    {
      this.companyRepository := companyRepository;
    }

    /** `execute`: the administrator check, then the first stored company with the id. */
    method Execute(admin: User, companyId: CompanyId) returns (r: Result<Company, Error>)
      ensures !admin.Admin? ==> r == Err(ErrorNotAuthorizedToRetrieveACompany)
      ensures admin.Admin? && !Stored(companyRepository.storage.companies, companyId) ==> r == Err(ErrorNotFound)
      ensures admin.Admin? && Stored(companyRepository.storage.companies, companyId) ==>
                r == Ok(companyRepository.storage.companies[PositionOf(companyRepository.storage.companies, companyId)])
      ensures r.Ok? ==> r.value.id == companyId && r.value in companyRepository.storage.companies
    {
      if !IsAdmin(admin) {
        return Err(ErrorNotAuthorizedToRetrieveACompany);
      }
      var company := companyRepository.GetById(companyId);
      if company.None? {
        return Err(ErrorNotFound);
      }
      r := Ok(company.value);
    }
  }
}
