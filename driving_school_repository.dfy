/**
  `InMemoryDrivingSchoolRepository`: creation of driving schools, guarded by
  the existence of their company, and lookup by id.
 */
module DrivingSchoolRepository {
  import opened ErrorService
  import opened Errors
  import opened Sequences
  import opened Companies
  import opened DrivingSchools
  import opened Storage

  /** The test `company.id === companyId`. */
  function IsCompany(companyId: CompanyId): Company -> bool {
    (c: Company) => c.id == companyId
  }

  /** The test `drivingSchool.id === id`. */
  function SchoolHasId(id: DrivingSchoolId): DrivingSchool -> bool {
    (s: DrivingSchool) => s.id == id
  }

  /** Some company of `cs` has the id. */
  predicate CompanyExists(cs: seq<Company>, companyId: CompanyId) {
    exists i :: 0 <= i < |cs| && cs[i].id == companyId
  }

  class InMemoryDrivingSchoolRepository {
    const storage: CrenautoStorage

    constructor(storage: CrenautoStorage)
      ensures this.storage == storage
    {
      this.storage := storage;
    }

    /**
      `create`: appends the school when its company is stored; otherwise
      fails with `ErrorCompanyNotFound` and stores nothing.
     */
    method Create(drivingSchool: DrivingSchool) returns (r: Result<DrivingSchool, Error>)
      modifies storage
      ensures CompanyExists(old(storage.companies), drivingSchool.companyId) ==>
                r == Ok(drivingSchool) && storage.drivingSchools == old(storage.drivingSchools) + [drivingSchool]
      ensures !CompanyExists(old(storage.companies), drivingSchool.companyId) ==>
                r == Err(ErrorCompanyNotFound) && storage.drivingSchools == old(storage.drivingSchools)
      ensures storage.companies == old(storage.companies)
      ensures r.Err? ==> unchanged(storage)
    {
      var found := DoesCompanyExist(drivingSchool.companyId);
      if !found {
        return Err(ErrorCompanyNotFound);
      }
      storage.drivingSchools := storage.drivingSchools + [drivingSchool];
      r := Ok(drivingSchool);
    }

    /** `getById`: the first driving school with the id, if any. */
    method GetById(id: DrivingSchoolId) returns (r: Option<DrivingSchool>)
      ensures r == Find(storage.drivingSchools, SchoolHasId(id))
      ensures r.Some? <==> exists i :: 0 <= i < |storage.drivingSchools| && storage.drivingSchools[i].id == id
      ensures r.Some? ==> r.value.id == id && r.value in storage.drivingSchools
    {
      r := Find(storage.drivingSchools, SchoolHasId(id));
      assert forall i :: 0 <= i < |storage.drivingSchools| ==>
        (SchoolHasId(id)(storage.drivingSchools[i]) <==> storage.drivingSchools[i].id == id);
    }

    /** `defineDrivingSchools`: replaces the list. */
    method DefineDrivingSchools(drivingSchools: seq<DrivingSchool>)
      modifies storage
      ensures storage.drivingSchools == drivingSchools
      ensures storage.companies == old(storage.companies)
    {
      storage.drivingSchools := drivingSchools;
    }

    /** `doesCompanyExist`: whether `find` meets a company with the id. */
    method DoesCompanyExist(companyId: CompanyId) returns (b: bool)
      ensures b <==> CompanyExists(storage.companies, companyId)
    {
      var searchCompany := Find(storage.companies, IsCompany(companyId));
      assert forall i :: 0 <= i < |storage.companies| ==>
        (IsCompany(companyId)(storage.companies[i]) <==> storage.companies[i].id == companyId);
      b := searchCompany.Some?;
    }
  }
}
