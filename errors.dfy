/**
  The error classes of the domain and application layers. In the source each is a
  subclass of `Error` that the code throws or wraps in `Err`; here each is a value.
 */
module Errors {

  datatype Error =
    // value objects and entities (libs/domain/src/entities)
    | ErrorInvalidCompanyName
    | ErrorInvalidCompanyContact  // declared beside the others, never raised
    | ErrorInvalidPhoneNumber
    | ErrorInvalidEmail
    | ErrorCompanyNotFound
    // libs/domain/src/errors/ErrorNotFound.ts
    | ErrorNotFound
    // one authorization error per use case
    | ErrorNotAuthorizedToCreateACompany
    | ErrorNotAuthorizedToCreateADrivingSchool
    | ErrorNotAuthorizedToEditACompany
    | ErrorNotAuthorizedToDeleteACompany
    | ErrorNotAuthorizedToRetrieveACompany
    | ErrorNotAuthorizedToRetrieveCompanies
    | ErrorNotAuthorizedToRetrieveDrivingSchoolsOfACompany
}
