/** `CreateADrivingSchoolUseCase`: an administrator or a director registers a driving school. */
module CreateADrivingSchool {
  import opened ErrorService
  import opened Errors
  import opened Address
  import opened Users
  import opened RoleService
  import Companies
  import opened DrivingSchools
  import opened DrivingSchoolRepository

  /** `DrivingSchoolToCreateCommand`; the company id is optional. */
  datatype DrivingSchoolToCreateCommand = DrivingSchoolToCreateCommand(
    companyId: Option<string>,
    name: string,
    address: Address,
    phone: string,
    email: string,
    openingHours: OpeningHours)

  /** The company the school is created for: the command's for an administrator, their own for a director. */
  function CompanyIdFor(user: User, command: DrivingSchoolToCreateCommand): (r: Option<Companies.CompanyId>)
    requires IsAdminOrDirector(user)
    ensures user.Admin? ==> r == command.companyId
    ensures user.Director? ==> r == user.Data().relatedCompany && r == Some(user.relatedCompany)
  {
    if IsAdmin(user) then command.companyId else user.Data().relatedCompany
  }

  /** A director's own company wins over whatever the command names. */
  lemma DirectorCompanyOverridesCommand(user: User, c1: DrivingSchoolToCreateCommand, c2: DrivingSchoolToCreateCommand)
    requires user.Director?
    ensures CompanyIdFor(user, c1) == CompanyIdFor(user, c2) == Some(user.relatedCompany)
  {
  }

  /**
    The record handed to `DrivingSchool.fromData`: id and fingerprint from
    the id provider, both timestamps from the date provider, the rest from the
    command. A missing company id is carried as the empty id, which
    validation never reads.
   */
  function NewDrivingSchoolData(command: DrivingSchoolToCreateCommand, companyId: Option<Companies.CompanyId>,
                                id: DrivingSchoolId, fingerPrint: DrivingSchoolFingerprint, now: int): (d: DrivingSchoolData)
    ensures d.id == id && d.fingerPrint == fingerPrint && d.createdAt == now && d.updatedAt == now
    ensures companyId.Some? ==> d.companyId == companyId.value
    ensures d.name == command.name && d.address == command.address && d.openingHours == command.openingHours
    ensures d.phone == command.phone && d.email == command.email
  {
    DrivingSchoolData(id, fingerPrint, if companyId.Some? then companyId.value else "",
                      command.name, command.address, command.phone, command.email,
                      command.openingHours, now, now)
  }

  /** Whether the chosen company is stored. */
  predicate KnownCompany(companies: seq<Companies.Company>, companyId: Option<Companies.CompanyId>) {
    companyId.Some? && CompanyExists(companies, companyId.value)
  }

  class CreateADrivingSchoolUseCase {
    const drivingSchoolRepository: InMemoryDrivingSchoolRepository

    constructor(drivingSchoolRepository: InMemoryDrivingSchoolRepository)
      ensures this.drivingSchoolRepository == drivingSchoolRepository
    {
      this.drivingSchoolRepository := drivingSchoolRepository;
    }

    /**
      `execute`: the role check, the choice of company, validation, then the
      repository, which refuses an unknown company. `id`, `fingerPrint` and
      `now` are what the id and date providers return.
     */
    method Execute(user: User, drivingSchoolToCreate: DrivingSchoolToCreateCommand,
                   id: DrivingSchoolId, fingerPrint: DrivingSchoolFingerprint, now: int)
      returns (r: Result<DrivingSchool, Error>)
      modifies drivingSchoolRepository.storage
      ensures !(user.Admin? || user.Director?) ==> r == Err(ErrorNotAuthorizedToCreateADrivingSchool)
      ensures (user.Admin? || user.Director?) ==>
                var companyId := CompanyIdFor(user, drivingSchoolToCreate);
                var data := NewDrivingSchoolData(drivingSchoolToCreate, companyId, id, fingerPrint, now);
                && (FromData(data).Err? ==> r == FromData(data))
                && (FromData(data).Ok? && !KnownCompany(old(drivingSchoolRepository.storage.companies), companyId) ==>
                      r == Err(ErrorCompanyNotFound))
                && (FromData(data).Ok? && KnownCompany(old(drivingSchoolRepository.storage.companies), companyId) ==>
                      r.Ok? && r.value.Data() == data)
      ensures r.Err? ==> unchanged(drivingSchoolRepository.storage)
      ensures r.Ok? ==> drivingSchoolRepository.storage.drivingSchools
                          == old(drivingSchoolRepository.storage.drivingSchools) + [r.value]
      ensures drivingSchoolRepository.storage.companies == old(drivingSchoolRepository.storage.companies)
    {
      if !IsAdminOrDirector(user) {
        return Err(ErrorNotAuthorizedToCreateADrivingSchool);
      }
      var companyId := CompanyIdFor(user, drivingSchoolToCreate);
      var drivingSchool := FromData(NewDrivingSchoolData(drivingSchoolToCreate, companyId, id, fingerPrint, now));
      if drivingSchool.IsErr() {
        return drivingSchool;
      }
      if companyId.None? {
        // An undefined company id matches no stored company.
        return Err(ErrorCompanyNotFound);
      }
      r := drivingSchoolRepository.Create(drivingSchool.value);
    }
  }
}
