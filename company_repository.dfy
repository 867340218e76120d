/**
  `InMemoryCompanyRepository`: the company operations of the application,
  as list operations on the shared store.
 */
module CompanyRepository {
  import opened ErrorService
  import opened Sequences
  import opened Companies
  import opened DrivingSchools
  import opened Storage

  /** The test `company.id === id`. */
  function HasId(id: CompanyId): Company -> bool {
    (c: Company) => c.id == id
  }

  /** The test `company.id !== id`. */
  function LacksId(id: CompanyId): Company -> bool {
    (c: Company) => c.id != id
  }

  /** The test `drivingSchool.companyId === companyId`. */
  function BelongsTo(companyId: CompanyId): DrivingSchool -> bool {
    (s: DrivingSchool) => s.companyId == companyId
  }

  /** Some company in `cs` has the id. */
  predicate Stored(cs: seq<Company>, id: CompanyId) {
    exists i :: 0 <= i < |cs| && cs[i].id == id
  }

  /** The position `findIndex` finds: the first company with the id. */
  function PositionOf(cs: seq<Company>, id: CompanyId): (i: nat)
    requires Stored(cs, id)
    ensures i < |cs| && cs[i].id == id
    ensures forall j :: 0 <= j < i ==> cs[j].id != id
  {
    assert exists k :: 0 <= k < |cs| && HasId(id)(cs[k]);
    FindIndex(cs, HasId(id)).value
  }

  /** The list `edit` leaves: the first company with the id replaced by `company`. */
  function Edited(cs: seq<Company>, id: CompanyId, company: Company): seq<Company>
    requires Stored(cs, id)
  {
    cs[PositionOf(cs, id) := company]
  }

  /** Editing keeps the length and every other position, and puts `company` at the first match. */
  lemma EditedReplacesFirstMatch(cs: seq<Company>, id: CompanyId, company: Company)
    requires Stored(cs, id)
    ensures |Edited(cs, id, company)| == |cs|
    ensures Edited(cs, id, company)[PositionOf(cs, id)] == company
    ensures forall j :: 0 <= j < |cs| && j != PositionOf(cs, id) ==> Edited(cs, id, company)[j] == cs[j]
  {
  }

  /** After an edit that keeps the id, looking the id up finds the new company. */
  lemma EditThenFind(cs: seq<Company>, id: CompanyId, company: Company)
    requires Stored(cs, id) && company.id == id
    ensures Find(Edited(cs, id, company), HasId(id)) == Some(company)
  {
    var e := Edited(cs, id, company);
    var i := PositionOf(cs, id);
    assert HasId(id)(e[i]);
    assert forall j :: 0 <= j < i ==> e[j] == cs[j];
  }

  /** `delete` removes every company with the id, keeps every other one, in order, and changes nothing when the id is absent. */
  lemma {:induction false} DeleteRemovesExactly(cs: seq<Company>, id: CompanyId)
    ensures forall j :: 0 <= j < |Filter(cs, LacksId(id))| ==> Filter(cs, LacksId(id))[j].id != id
    ensures forall j :: 0 <= j < |cs| && cs[j].id != id ==> cs[j] in Filter(cs, LacksId(id))
    ensures IsSubsequence(Filter(cs, LacksId(id)), cs)
    ensures !Stored(cs, id) ==> Filter(cs, LacksId(id)) == cs
    ensures Find(Filter(cs, LacksId(id)), HasId(id)).None?
  {
    var kept := Filter(cs, LacksId(id));
    FilterIsSubsequence(cs, LacksId(id));
    if !Stored(cs, id) {
      FilterKeepsAll(cs, LacksId(id));
    }
    assert forall j :: 0 <= j < |kept| ==> !HasId(id)(kept[j]);
  }

  /** `getDrivingSchoolsOfACompany`: exactly the schools of the company, in storage order. */
  lemma {:induction false} SchoolsOfExactly(ss: seq<DrivingSchool>, companyId: CompanyId)
    ensures forall j :: 0 <= j < |Filter(ss, BelongsTo(companyId))| ==> Filter(ss, BelongsTo(companyId))[j].companyId == companyId
    ensures forall j :: 0 <= j < |ss| && ss[j].companyId == companyId ==> ss[j] in Filter(ss, BelongsTo(companyId))
    ensures IsSubsequence(Filter(ss, BelongsTo(companyId)), ss)
  {
    FilterIsSubsequence(ss, BelongsTo(companyId));
  }

  class InMemoryCompanyRepository {
    const storage: CrenautoStorage

    constructor(storage: CrenautoStorage)
      ensures this.storage == storage
    {
      this.storage := storage;
    }

    /** `create`: appends the company and returns it. */
    method Create(company: Company) returns (r: Company)
      modifies storage
      ensures storage.companies == old(storage.companies) + [company]
      ensures storage.drivingSchools == old(storage.drivingSchools)
      ensures r == company
    {
      storage.companies := storage.companies + [company];
      r := company;
    }

    /** `getAll`: the stored list. */
    method GetAll() returns (r: seq<Company>)
      ensures r == storage.companies
    {
      r := storage.companies;
    }

    /** `edit`: overwrites the first company with the id, which must be stored, and returns what is now there. */
    method Edit(id: CompanyId, company: Company) returns (r: Company)
      requires Stored(storage.companies, id)
      modifies storage
      ensures storage.companies == Edited(old(storage.companies), id, company)
      ensures storage.drivingSchools == old(storage.drivingSchools)
      ensures r == company
    {
      var position := FindIndex(storage.companies, HasId(id)).value;
      storage.companies := storage.companies[position := company];
      r := storage.companies[position];
    }

    /** `defineCompanies`: replaces the list. */
    method DefineCompanies(companies: seq<Company>)
      modifies storage
      ensures storage.companies == companies
      ensures storage.drivingSchools == old(storage.drivingSchools)
    {
      storage.companies := companies;
    }

    /** `getById`: the first company with the id, if any. */
    method GetById(id: CompanyId) returns (r: Option<Company>)
      ensures r.Some? <==> Stored(storage.companies, id)
      ensures r.Some? ==> r.value.id == id && r.value == storage.companies[PositionOf(storage.companies, id)]
    {
      r := Find(storage.companies, HasId(id));
    }

    /** `delete`: keeps the companies whose id differs. */
    method Delete(id: CompanyId)
      modifies storage
      ensures storage.companies == Filter(old(storage.companies), LacksId(id))
      ensures storage.drivingSchools == old(storage.drivingSchools)
    {
      storage.companies := Filter(storage.companies, LacksId(id));
    }

    /** `getDrivingSchoolsOfACompany`: the stored schools of the company. */
    method GetDrivingSchoolsOfACompany(companyId: CompanyId) returns (r: seq<DrivingSchool>)
      ensures r == Filter(storage.drivingSchools, BelongsTo(companyId))
      ensures forall j :: 0 <= j < |r| ==> r[j].companyId == companyId
      ensures forall j :: 0 <= j < |storage.drivingSchools| && storage.drivingSchools[j].companyId == companyId
                ==> storage.drivingSchools[j] in r
    {
      r := Filter(storage.drivingSchools, BelongsTo(companyId));
    }
  }
}
