/** `CreateACompanyUseCase`: an administrator registers a new company. */
module CreateACompany {
  import opened ErrorService
  import opened Errors
  import opened Address
  import opened Users
  import opened RoleService
  import opened Companies
  import opened CompanyRepository

  /** `CompanyToCreateCommand`: what the caller supplies. */
  datatype CompanyToCreateCommand = CompanyToCreateCommand(
    name: string,
    address: Address,
    legalStatus: string,
    contact: Contact)

  /**
    The record handed to `Company.fromData`: id and fingerprint from the id
    provider, both timestamps from the date provider, the rest from the command.
   */
  function NewCompanyData(command: CompanyToCreateCommand, id: CompanyId, fingerprint: CompanyFingerprint, now: int): (d: CompanyData)
    ensures d.id == id && d.fingerprint == fingerprint
    ensures d.name == command.name && d.address == command.address
    ensures d.legalStatus == command.legalStatus && d.contact == command.contact
    ensures d.createdAt == now && d.updatedAt == now
  {
    CompanyData(id, fingerprint, command.name, command.address, command.legalStatus, command.contact, now, now)
  }

  class CreateACompanyUseCase {
    const companyRepository: InMemoryCompanyRepository

    constructor(companyRepository: InMemoryCompanyRepository)
      ensures this.companyRepository == companyRepository
    {
      this.companyRepository := companyRepository;
    }

    /**
      `execute`: the administrator check first, then validation, then the
      repository. `id`, `fingerprint` and `now` are what the id and date
      providers return.
     */
    method Execute(companyToCreate: CompanyToCreateCommand, admin: User,
                   id: CompanyId, fingerprint: CompanyFingerprint, now: int)
      returns (r: Result<Company, Error>)
      modifies companyRepository.storage
      ensures !admin.Admin? ==> r == Err(ErrorNotAuthorizedToCreateACompany)
      ensures admin.Admin? && !ValidCompanyData(NewCompanyData(companyToCreate, id, fingerprint, now)) ==>
                r == FromData(NewCompanyData(companyToCreate, id, fingerprint, now))
      ensures r.Err? ==> unchanged(companyRepository.storage)
      ensures r.Ok? <==> admin.Admin? && ValidCompanyData(NewCompanyData(companyToCreate, id, fingerprint, now))
      ensures r.Ok? ==> r.value.Data() == NewCompanyData(companyToCreate, id, fingerprint, now)
      ensures r.Ok? ==> companyRepository.storage.companies == old(companyRepository.storage.companies) + [r.value]
      ensures companyRepository.storage.drivingSchools == old(companyRepository.storage.drivingSchools)
    {
      if !IsAdmin(admin) {
        return Err(ErrorNotAuthorizedToCreateACompany);
      }
      var newCompany := FromData(NewCompanyData(companyToCreate, id, fingerprint, now));
      if newCompany.IsErr() {
        return newCompany;
      }
      var created := companyRepository.Create(newCompany.value);
      r := Ok(created);
    }
  }
}
