# Crenauto core: companies, driving schools and role-based use cases

This project models the domain and application core of Crenauto, a back office for driving-school companies:

- **Value objects.** The `Phone` and `Email` value objects with their regular-expression validation. `CompanyName` with its length rule. The `HH:MM` opening-hours type.
- **Entities.** `Company` and `DrivingSchool`, each built by a `fromData` factory that validates and reports the first failure. Each has a `data` projection.
- **Users and roles.** The user classes (admin, director, executive, instructor, student) and the role service that gates every use case.
- **Results.** The `Result` type of the error library and its helpers.
- **Storage.** The in-memory repositories over the shared `{companies, drivingSchools}` store.
- **Views.** The transformer strategy that shows a driving school in full to an administrator and in a restricted form to everyone else.
- **Use cases.** The eight use cases: create, edit, delete, retrieve one and retrieve all companies; create and retrieve a driving school; list the driving schools of a company.

## How the model is laid out

- One Dafny module per source file, plus three helper modules:
  - `Chars`: character classes;
  - `Sequences`: the semantics of JavaScript's `find`, `findIndex` and `filter`;
  - `Errors`: every error class as one datatype.
- `Storage` models the shared store of Storage.ts: a class whose two sequence fields the repositories reassign.
- `Address` models the unchecked address value of Address.ts. `UserRoles` holds the role enumeration that `RoleService` and the user classes share; it sits in role_service.dfy beside `RoleService`.
- `Phone.Phone`, `Email.Email`, `Companies.CompanyName` and `Hours.HoursAndMinutes` are subset types. Every value of one of them is valid, as the private TypeScript constructors ensure.
- Each recogniser has two descriptions:
  - an operational one that reads the regular expression literally. For the phone this is a left-to-right scanner. For the e-mail (`Groups`, `Dotted`, `DomainPart`, `ValidateEmail`) it is a backtracking description that ranges over the split points between the parts of the pattern;
  - a declarative "shape" predicate that describes the accepted strings by properties of their characters.
  
  A lemma proves the two agree.
- Three operations are plain functions whose own contracts say little or nothing. The lemmas in their rows state what they do. `RetrieveCompanies.SortCompaniesByDescCreationDate` is described by `CompaniesNewestFirst`, `SortedCompaniesStay` and `ThreeCompaniesNewestFirst`. `EditACompany.Merge` is described by `MergeFields` and the other `Merge…` lemmas. `CompanyRepository.Edited` is described by `EditedReplacesFirstMatch` and `EditThenFind`.
- Users are a tagged datatype. Besides the five classes there is an `Unlisted` user whose role is outside the enumeration. The tests build such a user by casting an object with the role `"blabla"`.
- The repositories and use cases are classes.
  - Every state-changing method states the whole new store.
  - Every read-only method states its result in terms of the store.
- Id and date providers become method parameters (`id`, `fingerprint`, `now`).
- Dates are integers, the `getTime()` values.

## Model

| member | source | states |
|---|---|---|
| ErrorService.OkIsOk | libs/error/src/ErrorService.ts:3-18 | `ok(v)` is Ok and not Err, and carries `v` |
| ErrorService.ErrIsErr | libs/error/src/ErrorService.ts:5-6 | `err(e)` is Err and not Ok, and carries `e` |
| ErrorService.IsErrIsNotIsOk | libs/error/src/ErrorService.ts:15-17 | for every result, `isErr()` is the negation of `isOk()` |
| ErrorService.KeepOnlyOkValues | libs/error/src/ErrorService.ts:48-50 | the value of every Ok entry is kept; only values of Ok entries appear; never longer than the input |
| ErrorService.KeepOnlyOkValuesConcat | libs/error/src/ErrorService.ts:48-50 | keeping Ok values distributes over concatenation, so their order is the input order |
| ErrorService.KeepOnlyOkValuesSingle | libs/error/src/ErrorService.ts:48-50 | a single Ok entry yields its value; a single Err entry yields nothing |
| ErrorService.KeepFirstItem | libs/error/src/ErrorService.ts:52-54 | the first element exactly when there is one, nothing (JavaScript `undefined`) for an empty array |
| ErrorService.AssertItIsOk | libs/error/src/ErrorService.ts:32-38 | passes exactly on an Ok result, otherwise fails with "Not an Ok result" |
| ErrorService.AssertItIsErr | libs/error/src/ErrorService.ts:40-46 | passes exactly on an Err result, otherwise fails with "Not an Err result" |
| Sequences.FindIndex | libs/application/src/in-memory-repositories/InMemoryCompanyRepository.ts:27-29 | the first index whose element passes the test; none exactly when no element passes |
| Sequences.Find | libs/application/src/in-memory-repositories/InMemoryCompanyRepository.ts:40-42 | some element exactly when one passes; then it is the element at the first passing index |
| Sequences.Filter | libs/application/src/in-memory-repositories/InMemoryCompanyRepository.ts:44-48 | every kept element passes and comes from the input; every passing input element is kept |
| Sequences.FilterIsSubsequence | libs/application/src/in-memory-repositories/InMemoryCompanyRepository.ts:44-48 | the filtered list keeps the input order (it is a subsequence) |
| Sequences.FilterConcat | libs/application/src/in-memory-repositories/InMemoryCompanyRepository.ts:44-48 | filtering distributes over concatenation |
| Sequences.FilterKeepsAll | libs/application/src/in-memory-repositories/InMemoryCompanyRepository.ts:44-48 | when every element passes, the filter is the identity |
| Sequences.FilterDropsAll | libs/application/src/in-memory-repositories/InMemoryCompanyRepository.ts:44-48 | when no element passes, the filter is empty |
| Phone.SubscriberIff | libs/domain/src/entities/value-objects/Phone.ts:13 | the scanner accepts the tail exactly when it is all digits and brings the subscriber part to three or more digits |
| Phone.CountryCodeIff | libs/domain/src/entities/value-objects/Phone.ts:13 | the scanner accepts after the `+` exactly when one to three digits, a `.` and three or more digits follow |
| Phone.ValidatePhoneIff | libs/domain/src/entities/value-objects/Phone.ts:12-15 | `validatePhone` accepts exactly the strings of shape `+` d{1,3} `.` d{3,} |
| Phone.Of | libs/domain/src/entities/value-objects/Phone.ts:4-10 | Ok exactly on a valid phone, keeping the input as `value`; otherwise `ErrorInvalidPhoneNumber` |
| Phone.AcceptedPhoneBounds | libs/domain/src/entities/value-objects/Phone.ts:13 | an accepted phone starts with `+` and has at least six characters |
| Phone.PhoneExamples | libs/domain/src/entities/value-objects/Phone.ts:13 | `+33.612345678` is accepted and `12345` refused |
| Email.GroupsIff | libs/domain/src/entities/value-objects/Email.ts:13 | `([.-]?\w+)*` matches exactly the empty string and the strings of word characters and separators that end in a word character with no separator after a separator |
| Email.DottedIff | libs/domain/src/entities/value-objects/Email.ts:13 | `\w+([.-]?\w+)*` matches exactly those strings that also start with a word character |
| Email.TopLevelsSound | libs/domain/src/entities/value-objects/Email.ts:13 | whatever `(\.\w{2,3})+` matches ends in a dot and two or three word characters |
| Email.DomainIff | libs/domain/src/entities/value-objects/Email.ts:13 | the domain part matches exactly a dotted word string ending in a top-level label of two or three word characters |
| Email.ValidateEmailIff | libs/domain/src/entities/value-objects/Email.ts:12-15 | `validateEmail` accepts exactly the strings that split at an `@` into such a local part and such a domain |
| Email.Of | libs/domain/src/entities/value-objects/Email.ts:4-10 | Ok exactly on a valid address, keeping the input as `value`; otherwise `ErrorInvalidEmail` |
| Email.SampleAddress | libs/domain/src/entities/value-objects/Email.ts:13 | its result is the string `a@b.cd`, and it is accepted (the witness that `Email` is inhabited) |
| Email.AcceptedEmailOneAt | libs/domain/src/entities/value-objects/Email.ts:13 | an accepted address holds exactly one `@` |
| Email.AcceptedEmailEnds | libs/domain/src/entities/value-objects/Email.ts:13 | an accepted address has at least six characters, starts with a word character, has word characters on both sides of its `@`, and ends in a dot and two or three word characters |
| Email.AcceptedEmailSeparators | libs/domain/src/entities/value-objects/Email.ts:13 | an accepted address does not start with `.` or `-`, and every `.` or `-` follows a word character |
| Email.AcceptedByParts | libs/domain/src/entities/value-objects/Email.ts:13 | a word local part, `@`, and a dotted domain ending in a two- or three-character label are accepted |
| Email.SimpleAccepted | libs/domain/src/entities/value-objects/Email.ts:13 | `local@host.tld` is accepted for word runs with a two- or three-character `tld` |
| Email.AcceptedEmailExamples | libs/domain/src/entities/value-objects/Email.ts:13 | `john@doe.com`, `super@drive.com` and `drive@your.car` are accepted |
| Email.RefusedEmailExamples | libs/domain/src/entities/value-objects/Email.ts:13 | `super@admin`, `a@b` and the empty string are refused |
| Hours.HourOf | libs/domain/src/entities/value-objects/Hours.ts:5 | the hour a value denotes lies in 0..23 |
| Hours.MinuteOf | libs/domain/src/entities/value-objects/Hours.ts:6 | the minute a value denotes lies in 0..59 |
| Hours.Format | libs/domain/src/entities/value-objects/Hours.ts:1-7 | every time of day from 00:00 to 23:59 has a spelling, and reading it back gives the same hour and minute |
| Hours.ReadThenFormat | libs/domain/src/entities/value-objects/Hours.ts:1-7 | every value is the spelling of the time it denotes |
| Hours.HoursAndMinutesDigits | libs/domain/src/entities/value-objects/Hours.ts:1-7 | five characters, `:` at index 2, an ASCII digit everywhere else |
| Hours.HoursAndMinutesIff | libs/domain/src/entities/value-objects/Hours.ts:5-7 | a string is a value exactly when it spells some time from 00:00 to 23:59 |
| Hours.HoursAndMinutesExamples | libs/domain/src/entities/value-objects/Hours.ts:5-7 | `08:30` and `23:59` are values; `24:00`, `12:60` and `8:30` are not |
| Companies.CompanyNameOf | libs/domain/src/entities/Company.ts:99-109 | Ok exactly when the name has 1 to 255 characters, keeping it; otherwise `ErrorInvalidCompanyName` |
| Companies.CompanyNameBounds | libs/domain/src/entities/Company.ts:107-109 | the empty name and names over 255 characters are refused |
| Companies.FromData | libs/domain/src/entities/Company.ts:28-57 | Ok exactly when name, phone and e-mail are all valid, and then `data` gives the input back; errors in the order name, phone, e-mail |
| Companies.DataRoundTrip | libs/domain/src/entities/Company.ts:28-93 | rebuilding a company from its `data` gives the same company |
| Companies.DataInjective | libs/domain/src/entities/Company.ts:79-93 | two companies with the same `data` are the same company |
| Companies.GettersAgreeWithData | libs/domain/src/entities/Company.ts:71-77 | `id` and `createdAt` agree with `data` |
| Companies.FromDataChecksOnlyNameAndContact | libs/domain/src/entities/Company.ts:32-41 | records that agree on name and contact get the same verdict and the same error: the other fields are only copied |
| Companies.EmptyNameReportedFirst | libs/domain/src/entities/Company.ts:35-38 | an empty name with phone `123456789` reports `ErrorInvalidCompanyName` |
| DrivingSchools.DayOfName | libs/domain/src/entities/DrivingSchool.ts:21-28 | a recognised day name is the name of the day found |
| DrivingSchools.DayNamesRoundTrip | libs/domain/src/entities/DrivingSchool.ts:21-28 | every day is found from its name, and exactly the seven names `monday`..`sunday` denote a day |
| DrivingSchools.OpeningHoursExtensional | libs/domain/src/entities/DrivingSchool.ts:29 | opening hours are determined by the list each of the seven days maps to |
| DrivingSchools.FromData | libs/domain/src/entities/DrivingSchool.ts:32-58 | Ok exactly when phone and e-mail are valid, and then `data` gives the input back; the phone error comes before the e-mail error |
| DrivingSchools.DataRoundTrip | libs/domain/src/entities/DrivingSchool.ts:32-94 | rebuilding a driving school from its `data` gives the same school |
| DrivingSchools.DataInjective | libs/domain/src/entities/DrivingSchool.ts:81-94 | two driving schools with the same `data` are the same school |
| DrivingSchools.GettersAgreeWithData | libs/domain/src/entities/DrivingSchool.ts:73-79 | `id` and `companyId` agree with `data` |
| DrivingSchools.FromDataChecksOnlyContact | libs/domain/src/entities/DrivingSchool.ts:36-47 | records that agree on phone and e-mail get the same verdict and the same error |
| DrivingSchools.FromDataIgnoresCompanyId | libs/domain/src/entities/DrivingSchool.ts:39 | the company id is not checked: changing it changes only that field of the result |
| Users.RoleDeterminesKind | libs/domain/src/entities/User.ts:3-168 | the role names the kind of user; an unlisted user's role is none of the five |
| Users.DataInjective | libs/domain/src/entities/User.ts:16-24 | two users with the same `data` are the same user |
| Users.AdminData | libs/domain/src/entities/User.ts:27-44 | an admin has role `admin` and `data` returns its fields unchanged |
| Users.DirectorData | libs/domain/src/entities/User.ts:47-81 | a director has role `director`, and both `relatedCompany` and `data.relatedCompany` are the given company |
| Users.ExecutiveAndInstructorData | libs/domain/src/entities/User.ts:84-148 | executives and instructors carry their company in `data`, with roles `executive` and `instructor` |
| Users.StudentData | libs/domain/src/entities/User.ts:150-167 | a student has role `student` and no related company |
| UserRoles.FiveRoles | libs/domain/src/services/RoleService.ts:3-11 | the role enumeration is exactly the five roles |
| RoleService.IsAdmin | libs/domain/src/services/RoleService.ts:14-16 | true exactly for administrators |
| RoleService.IsDirector | libs/domain/src/services/RoleService.ts:18-20 | true exactly for directors |
| RoleService.IsAdminOrDirector | libs/domain/src/services/RoleService.ts:22-24 | the disjunction of the two tests, true exactly for administrators and directors |
| RoleService.UnlistedIsNeither | libs/domain/src/services/RoleService.ts:14-24 | a user whose role is outside the enumeration passes none of the three tests |
| Storage.CrenautoStorage.constructor | libs/application/src/test-utils/fixtures/Storage.ts:8-12 | the store starts with no companies and no driving schools |
| Storage.CrenautoStorage.Reset | libs/application/src/test-utils/fixtures/Storage.ts:14-19 | `$reset` empties both lists |
| CompanyRepository.PositionOf | libs/application/src/in-memory-repositories/InMemoryCompanyRepository.ts:27-29 | the index of the first company with the id |
| CompanyRepository.EditedReplacesFirstMatch | libs/application/src/in-memory-repositories/InMemoryCompanyRepository.ts:26-34 | an edit replaces only the first company with the id; the length and every other element stay |
| CompanyRepository.EditThenFind | libs/application/src/in-memory-repositories/InMemoryCompanyRepository.ts:26-42 | after an edit with a company of the same id, `getById` finds the new company |
| CompanyRepository.DeleteRemovesExactly | libs/application/src/in-memory-repositories/InMemoryCompanyRepository.ts:44-48 | delete removes every company with the id, keeps all others in order, changes nothing when the id is absent, and afterwards the id is not found |
| CompanyRepository.SchoolsOfExactly | libs/application/src/in-memory-repositories/InMemoryCompanyRepository.ts:50-56 | exactly the driving schools of the company, in storage order |
| CompanyRepository.InMemoryCompanyRepository.Create | libs/application/src/in-memory-repositories/InMemoryCompanyRepository.ts:17-20 | appends the company, returns it, leaves the driving schools alone |
| CompanyRepository.InMemoryCompanyRepository.GetAll | libs/application/src/in-memory-repositories/InMemoryCompanyRepository.ts:22-24 | returns the stored list itself |
| CompanyRepository.InMemoryCompanyRepository.Edit | libs/application/src/in-memory-repositories/InMemoryCompanyRepository.ts:26-34 | replaces the first company with the id and returns the new company |
| CompanyRepository.InMemoryCompanyRepository.DefineCompanies | libs/application/src/in-memory-repositories/InMemoryCompanyRepository.ts:36-38 | the stored companies become the given list; driving schools unchanged |
| CompanyRepository.InMemoryCompanyRepository.GetById | libs/application/src/in-memory-repositories/InMemoryCompanyRepository.ts:40-42 | the first company with the id, or nothing exactly when none has it |
| CompanyRepository.InMemoryCompanyRepository.Delete | libs/application/src/in-memory-repositories/InMemoryCompanyRepository.ts:44-48 | the stored companies become those without the id |
| CompanyRepository.InMemoryCompanyRepository.GetDrivingSchoolsOfACompany | libs/application/src/in-memory-repositories/InMemoryCompanyRepository.ts:50-56 | exactly the stored driving schools whose `companyId` is the argument |
| DrivingSchoolRepository.InMemoryDrivingSchoolRepository.Create | libs/application/src/in-memory-repositories/InMemoryDrivingSchoolRepository.ts:20-32 | appends and returns Ok when a stored company has the school's `companyId`; otherwise `ErrorCompanyNotFound` and no change; companies never change |
| DrivingSchoolRepository.InMemoryDrivingSchoolRepository.GetById | libs/application/src/in-memory-repositories/InMemoryDrivingSchoolRepository.ts:34-40 | the first driving school with the id, or nothing exactly when none has it |
| DrivingSchoolRepository.InMemoryDrivingSchoolRepository.DefineDrivingSchools | libs/application/src/in-memory-repositories/InMemoryDrivingSchoolRepository.ts:42-44 | the stored driving schools become the given list; companies unchanged |
| DrivingSchoolRepository.InMemoryDrivingSchoolRepository.DoesCompanyExist | libs/application/src/in-memory-repositories/InMemoryDrivingSchoolRepository.ts:46-52 | true exactly when a stored company has the id |
| DrivingSchoolStrategy.CreateTransformer | libs/application/src/strategies/DrivingSchoolStrategy.ts:14-19 | the admin transformer exactly for the role `admin`, the student one for every other role |
| DrivingSchoolStrategy.ForStudentView | libs/application/src/strategies/DrivingSchoolStrategy.ts:25-34 | the student view holds the school's `id` and the `name`, `phone`, `email`, `address` and `openingHours` of its `data`, each in its own slot |
| DrivingSchoolStrategy.Transform | libs/application/src/strategies/DrivingSchoolStrategy.ts:25-42 | the admin transformer returns the school's `data` unchanged, the student transformer the student view; the full view exactly with the admin transformer |
| DrivingSchoolStrategy.StudentViewShowsExactlyPublicFields | libs/application/src/strategies/DrivingSchoolStrategy.ts:25-34 | two schools look alike to a student exactly when id, name, phone, e-mail, address and opening hours agree |
| DrivingSchoolStrategy.StudentViewHidesPrivateFields | libs/application/src/strategies/DrivingSchoolStrategy.ts:45-52 | the student view does not depend on `companyId`, `fingerPrint`, `createdAt` or `updatedAt` |
| DrivingSchoolStrategy.AdminViewIsFaithful | libs/application/src/strategies/DrivingSchoolStrategy.ts:40-42 | two schools look alike to an admin exactly when they are the same school |
| CreateACompany.NewCompanyData | libs/application/src/usecases/CreateACompany.ts:51-64 | id and fingerprint from the provider, name, address, legal status and contact from the command, both dates `now` |
| CreateACompany.CreateACompanyUseCase.Execute | libs/application/src/usecases/CreateACompany.ts:38-72 | non-admins get `ErrorNotAuthorizedToCreateACompany`; a validation error is returned as is; any error leaves the store unchanged; otherwise the new company is appended and returned |
| CreateADrivingSchool.CompanyIdFor | libs/application/src/usecases/CreateADrivingSchool.ts:53-55 | an admin's company comes from the command, a director's is their `relatedCompany` |
| CreateADrivingSchool.DirectorCompanyOverridesCommand | libs/application/src/usecases/CreateADrivingSchool.ts:53-55 | for a director the command's `companyId` makes no difference |
| CreateADrivingSchool.NewDrivingSchoolData | libs/application/src/usecases/CreateADrivingSchool.ts:57-69 | ids from the provider, both dates `now`, every other field from the command |
| CreateADrivingSchool.CreateADrivingSchoolUseCase.Execute | libs/application/src/usecases/CreateADrivingSchool.ts:40-84 | only admins and directors pass; phone and e-mail errors come first; an unknown company gives `ErrorCompanyNotFound`; any error leaves the store unchanged; success appends the school |
| EditACompany.MergeFields | libs/application/src/usecases/EditACompany.ts:49-53 | every key given wins, `contact` as a whole; keys left out keep the stored value; `id` and `createdAt` are kept and `updatedAt` is now |
| EditACompany.MergeNoChange | libs/application/src/usecases/EditACompany.ts:49-53 | an empty edit only refreshes `updatedAt` |
| EditACompany.MergeIdempotent | libs/application/src/usecases/EditACompany.ts:49-53 | applying the same edit twice at the same time equals applying it once |
| EditACompany.MergeCompose | libs/application/src/usecases/EditACompany.ts:49-53 | two edits in a row are one edit with the later keys winning |
| EditACompany.EditACompanyUseCase.Execute | libs/application/src/usecases/EditACompany.ts:29-65 | non-admins get `ErrorNotAuthorizedToEditACompany`; an unknown id gives `ErrorNotFound`; an invalid merge returns its error; any error leaves the store unchanged; otherwise the merged company replaces the first with the id |
| EditACompany.EditedCompanyIsFound | libs/application/src/usecases/EditACompany.ts:49-64 | after a successful edit the company is found under its id with the merged data |
| DeleteACompany.DeleteACompanyUseCase.Execute | libs/application/src/usecases/DeleteACompany.ts:17-33 | non-admins get `ErrorNotAuthorizedToDeleteACompany` and nothing changes; admins get the success marker, even for an absent id, and the companies with the id are removed |
| RetrieveACompany.RetrieveACompanyUseCase.Execute | libs/application/src/usecases/RetrieveACompany.ts:14-34 | non-admins get `ErrorNotAuthorizedToRetrieveACompany`; an absent id gives `ErrorNotFound`; otherwise the first company with the id; the store is only read |
| RetrieveCompanies.InsertPermutes | libs/application/src/usecases/RetrieveCompanies.ts:26-31 | an insertion adds exactly one element |
| RetrieveCompanies.SortIsPermutation | libs/application/src/usecases/RetrieveCompanies.ts:26-31 | the sort is a permutation |
| RetrieveCompanies.InsertSorted | libs/application/src/usecases/RetrieveCompanies.ts:26-31 | inserting into a list ordered largest key first keeps it ordered |
| RetrieveCompanies.SortIsSorted | libs/application/src/usecases/RetrieveCompanies.ts:26-31 | the sort orders by key, largest first |
| RetrieveCompanies.SortIsStable | libs/application/src/usecases/RetrieveCompanies.ts:27-30 | elements sharing a key keep their input order |
| RetrieveCompanies.SortKeepsSorted | libs/application/src/usecases/RetrieveCompanies.ts:27-30 | an input already ordered is left as it is |
| RetrieveCompanies.CompaniesNewestFirst | libs/application/src/usecases/RetrieveCompanies.ts:26-31 | the sorted companies are a permutation of the stored ones, newest first, with equal creation dates in stored order |
| RetrieveCompanies.SortedCompaniesStay | libs/application/src/usecases/RetrieveCompanies.ts:26-31 | a stored list already newest first is left unchanged |
| RetrieveCompanies.ThreeCompaniesNewestFirst | libs/application/src/usecases/RetrieveCompanies.ts:26-31 | three companies created at T1 < T2 < T3 come out as [T3, T2, T1] in each of the six stored orders |
| RetrieveCompanies.RetrieveCompaniesUseCase.Execute | libs/application/src/usecases/RetrieveCompanies.ts:9-24 | non-admins get `ErrorNotAuthorizedToRetrieveCompanies` and nothing changes; admins get the sorted list, and the store holds it afterwards |
| RetrieveADrivingSchool.RetrieveADrivingSchoolUseCase.Execute | libs/application/src/usecases/RetrieveADrivingSchool.ts:20-37 | no role check; an absent id gives `ErrorNotFound`; admins get the full `data`, everyone else the student view; the store is only read |
| RetrieveDrivingSchoolsOfACompany.RetrieveDrivingSchoolsOfACompanyUseCase.Execute | libs/application/src/usecases/RetrieveDrivingSchoolsOfACompany.ts:15-38 | only admins and directors pass; an admin gets the schools of the given company, a director those of their own company whatever the argument; the result is a subsequence of the store |

## Left out

- `async`/`Promise`: every repository method and use case runs to completion before the next starts, so the model uses ordinary methods.
- Exceptions as control flow are modelled as the `Result` values they turn into:
  - the error class hierarchy;
  - the `instanceof` dispatch in the `fromData` factories;
  - the rethrow of unknown exceptions;
  - the generic `catch` blocks of `DeleteACompany`, `RetrieveACompany` and `RetrieveCompanies`.
  
  The in-memory repositories never throw, so the generic catch paths cannot be reached.
- The message text carried by `ErrorNotFound` and by `ErrorNotAuthorizedToRetrieveDrivingSchoolsOfACompany`: errors are compared by kind only.
- `CompanyRepository.InMemoryCompanyRepository.Edit`: an absent id is a precondition. With an absent id, `findIndex` gives -1 and the source would write to index -1. No use case can reach this, because `EditACompany` looks the company up first.
- `CompanyRepository.InMemoryCompanyRepository.GetAll`: the returned array is the stored array itself. The model returns the stored sequence. The one use case that mutates the returned array, `RetrieveCompanies`, writes the sorted sequence back to the store, which is the effect the shared array has. Other aliasing is not modelled.
- `CreateACompany.CreateACompanyUseCase.Execute`, `CreateADrivingSchool.CreateADrivingSchoolUseCase.Execute`: the date provider's `now()` is called twice in the source; the model passes one `now` for both dates, as the stubbed provider in the tests returns one value.
- `CreateADrivingSchool.CreateADrivingSchoolUseCase.Execute`: an admin who gives no `companyId` passes `undefined` through `fromData` to the repository, whose lookup then fails. The model validates with the empty id in its place and, once validation passes, returns `ErrorCompanyNotFound` without calling the repository. The resulting errors and store are the same, since `fromData` never reads the company id.
- `EditACompany.Merge`: a key of the edit command is either left out or given a value. A key present with the value `undefined` is not modelled. The spread copies such an `undefined` over the stored value, and the source then behaves as follows:
  - `name: undefined` fails `CompanyName.of` with `ErrorInvalidCompanyName`;
  - `contact: undefined` makes `fromData` throw a `TypeError` that escapes `execute`;
  - an undefined `fingerprint`, `address` or `legalStatus` is stored as is.
  
  The model treats all of these like a key left out.
- Users that claim an enumerated role without being of that class (an object cast to `User`): the `Unlisted` user covers only roles outside the enumeration.
- `ErrorInvalidCompanyContact` is declared and caught in `Company.fromData`, but no code raises it, so no path of the model produces it.
- The repository getters `companies` and `drivingSchools` read a store field; the model reads the store fields directly.
- `Branded` types, the repository interfaces and the `Address` record: type-level only. Ids are strings and the address is a plain record.
- The password is carried unchanged and never inspected.
- The 255-character limit counts Dafny characters; the source counts UTF-16 code units, which differ only for characters outside the Basic Multilingual Plane.
- Test infrastructure (builders, fixtures, stub providers) and build configuration are not part of this model, except the store's initial state and `$reset`.
- Where the prose description of the system and the code differ, the model follows the code:
  - `RetrieveCompanies` orders by non-increasing `createdAt`; the order is strictly descending only when no two dates are equal.
  - `RetrieveADrivingSchool` makes no role check at all.
