/** `EditACompanyUseCase`: an administrator changes some fields of a stored company. */
module EditACompany {
  import opened ErrorService
  import opened Errors
  import opened Address
  import opened Users
  import opened RoleService
  import opened Companies
  import opened CompanyRepository

  /**
    `CompanyToEditCommand`: any subset of the fields other than `id`,
    `createdAt` and `updatedAt`; `None` is a key the command leaves out.
   */
  datatype CompanyToEditCommand = CompanyToEditCommand(
    fingerprint: Option<CompanyFingerprint>,
    name: Option<string>,
    address: Option<Address>,
    legalStatus: Option<string>,
    contact: Option<Contact>)

  /** The command that changes nothing. */
  const NoChange: CompanyToEditCommand := CompanyToEditCommand(None, None, None, None, None)

  /** The value of a spread key: the command's when present, the stored one otherwise. */
  function Override<T>(key: Option<T>, stored: T): T {
    if key.Some? then key.value else stored
  }

  /** `{...found.data, ...command, updatedAt: now}`: a shallow merge that always refreshes `updatedAt`. */
  function Merge(d: CompanyData, command: CompanyToEditCommand, now: int): CompanyData {
    CompanyData(
      d.id,
      Override(command.fingerprint, d.fingerprint),
      Override(command.name, d.name),
      Override(command.address, d.address),
      Override(command.legalStatus, d.legalStatus),
      Override(command.contact, d.contact),
      d.createdAt,
      now)
  }

  /** Every key given wins, every key left out keeps the stored value, `contact` as a whole; `id` and `createdAt` are kept and `updatedAt` is `now`. */
  lemma MergeFields(d: CompanyData, command: CompanyToEditCommand, now: int)
    ensures Merge(d, command, now).id == d.id && Merge(d, command, now).createdAt == d.createdAt
    ensures Merge(d, command, now).updatedAt == now
    ensures command.name.Some? ==> Merge(d, command, now).name == command.name.value
    ensures command.name.None? ==> Merge(d, command, now).name == d.name
    ensures command.contact.Some? ==> Merge(d, command, now).contact == command.contact.value
    ensures command.contact.None? ==> Merge(d, command, now).contact == d.contact
    ensures command.fingerprint.Some? ==> Merge(d, command, now).fingerprint == command.fingerprint.value
    ensures command.fingerprint.None? ==> Merge(d, command, now).fingerprint == d.fingerprint
    ensures command.address.Some? ==> Merge(d, command, now).address == command.address.value
    ensures command.address.None? ==> Merge(d, command, now).address == d.address
    ensures command.legalStatus.Some? ==> Merge(d, command, now).legalStatus == command.legalStatus.value
    ensures command.legalStatus.None? ==> Merge(d, command, now).legalStatus == d.legalStatus
  {
  }

  /** An empty command only refreshes `updatedAt`. */
  lemma MergeNoChange(d: CompanyData, now: int)
    ensures Merge(d, NoChange, now) == d.(updatedAt := now)
  {
  }

  /** Applying the same command twice at the same time is applying it once. */
  lemma MergeIdempotent(d: CompanyData, command: CompanyToEditCommand, now: int)
    ensures Merge(Merge(d, command, now), command, now) == Merge(d, command, now)
  {
  }

  /** The command whose keys are those of `second`, falling back on those of `first`. */
  function Then(first: CompanyToEditCommand, second: CompanyToEditCommand): CompanyToEditCommand {
    CompanyToEditCommand(
      if second.fingerprint.Some? then second.fingerprint else first.fingerprint,
      if second.name.Some? then second.name else first.name,
      if second.address.Some? then second.address else first.address,
      if second.legalStatus.Some? then second.legalStatus else first.legalStatus,
      if second.contact.Some? then second.contact else first.contact)
  }

  /** Two edits in a row are one edit with the later keys winning, stamped with the later time. */
  lemma MergeCompose(d: CompanyData, first: CompanyToEditCommand, second: CompanyToEditCommand, t1: int, t2: int)
    ensures Merge(Merge(d, first, t1), second, t2) == Merge(d, Then(first, second), t2)
  {
  }

  class EditACompanyUseCase {
    const companyRepository: InMemoryCompanyRepository

    constructor(companyRepository: InMemoryCompanyRepository)
      ensures this.companyRepository == companyRepository
    {
      this.companyRepository := companyRepository;
    }

    /**
      `execute`: the administrator check, the lookup, the merge with a fresh
      `updatedAt` (`now`, from the date provider), validation of the merged
      record, then the in-place replacement.
     */
    method Execute(companyId: CompanyId, companyToEdit: CompanyToEditCommand, admin: User, now: int)
      returns (r: Result<Company, Error>)
      modifies companyRepository.storage
      ensures !admin.Admin? ==> r == Err(ErrorNotAuthorizedToEditACompany)
      ensures admin.Admin? && !Stored(old(companyRepository.storage.companies), companyId) ==> r == Err(ErrorNotFound)
      ensures admin.Admin? && Stored(old(companyRepository.storage.companies), companyId) ==>
                var cs := old(companyRepository.storage.companies);
                var merged := Merge(cs[PositionOf(cs, companyId)].Data(), companyToEdit, now);
                && (!ValidCompanyData(merged) ==> r == FromData(merged))
                && (ValidCompanyData(merged) ==>
                      && r.Ok? && r.value.Data() == merged
                      && companyRepository.storage.companies == Edited(cs, companyId, r.value))
      ensures r.Err? ==> unchanged(companyRepository.storage)
      ensures companyRepository.storage.drivingSchools == old(companyRepository.storage.drivingSchools)
    {
      if !IsAdmin(admin) {
        return Err(ErrorNotAuthorizedToEditACompany);
      }
      var foundCompany := companyRepository.GetById(companyId);
      if foundCompany.None? {
        return Err(ErrorNotFound);
      }
      var editedCompany := FromData(Merge(foundCompany.value.Data(), companyToEdit, now));
      if editedCompany.IsErr() {
        return editedCompany;
      }
      var editCompanyResult := companyRepository.Edit(companyId, editedCompany.value);
      r := Ok(editCompanyResult);
    }
  }

  /** After a successful edit, looking the id up finds the edited company. */
  lemma EditedCompanyIsFound(cs: seq<Company>, companyId: CompanyId, command: CompanyToEditCommand, now: int)
    requires Stored(cs, companyId)
    requires FromData(Merge(cs[PositionOf(cs, companyId)].Data(), command, now)).Ok?
    ensures var edited := FromData(Merge(cs[PositionOf(cs, companyId)].Data(), command, now)).value;
            Sequences.Find(Edited(cs, companyId, edited), HasId(companyId)) == Some(edited)
  {
    var edited := FromData(Merge(cs[PositionOf(cs, companyId)].Data(), command, now)).value;
    assert edited.id == edited.Data().id;
    EditThenFind(cs, companyId, edited);
  }
}
