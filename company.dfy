/**
  The `Company` entity: built from its plain data by `fromData`, which
  validates the name, the contact phone and the contact e-mail in that
  order, and read back through its `data` projection.
 */
module Companies {
  import opened ErrorService
  import opened Errors
  import opened Address
  import Phone
  import Email

  type CompanyId = string
  type CompanyFingerprint = string

  datatype Contact = Contact(phone: string, email: string)

  /** The plain record `Company.data` returns and `Company.fromData` takes. */
  datatype CompanyData = CompanyData(
    id: CompanyId,
    fingerprint: CompanyFingerprint,
    name: string,
    address: Address,
    legalStatus: string,
    contact: Contact,
    createdAt: int,
    updatedAt: int)

  // ---------------------------------------------------------------------------
  // CompanyName
  // ---------------------------------------------------------------------------

  /** `validateCompanyName`: a non-empty name of at most 255 characters. */
  predicate ValidateCompanyName(name: string) {
    name != [] && |name| > 0 && |name| <= 255
  }

  datatype CompanyNameValue = CompanyNameValue(value: string)
  type CompanyName = n: CompanyNameValue | ValidateCompanyName(n.value) witness CompanyNameValue("C")

  /** `CompanyName.of`: wraps a valid name unchanged, fails with `ErrorInvalidCompanyName` otherwise. */
  function CompanyNameOf(value: string): (r: Result<CompanyName, Error>)
    ensures r.Ok? <==> 1 <= |value| <= 255
    ensures r.Ok? ==> r.value.value == value
    ensures r.Err? ==> r.error == ErrorInvalidCompanyName
  {
    if ValidateCompanyName(value) then Ok(CompanyNameValue(value)) else Err(ErrorInvalidCompanyName)
  }

  // ---------------------------------------------------------------------------
  // Company
  // ---------------------------------------------------------------------------

  /** An immutable company; the `id` and `createdAt` getters are the fields of the same names. */
  datatype Company = Company(
    id: CompanyId,
    fingerprint: CompanyFingerprint,
    name: CompanyName,
    address: Address,
    legalStatus: string,
    contactPhone: Phone.Phone,
    contactEmail: Email.Email,
    createdAt: int,
    updatedAt: int)
  {
    /** `data`: the plain record, with the value objects unwrapped. */
    function Data(): CompanyData {
      CompanyData(id, fingerprint, name.value, address, legalStatus,
                  Contact(contactPhone.value, contactEmail.value), createdAt, updatedAt)
    }
  }

  /** The three checks `fromData` makes, read independently of the recognisers. */
  ghost predicate ValidCompanyData(d: CompanyData) {
    1 <= |d.name| <= 255 && Phone.PhoneShape(d.contact.phone) && Email.EmailShape(d.contact.email)
  }

  /**
    `Company.fromData`: validates the name, then the phone, then the e-mail,
    and reports the first failure; every other field is copied unchecked.
   */
  function FromData(d: CompanyData): (r: Result<Company, Error>)
    ensures r.Ok? <==> ValidCompanyData(d)
    ensures r.Ok? ==> r.value.Data() == d
    ensures !(1 <= |d.name| <= 255) ==> r == Err(ErrorInvalidCompanyName)
    ensures 1 <= |d.name| <= 255 && !Phone.PhoneShape(d.contact.phone) ==> r == Err(ErrorInvalidPhoneNumber)
    ensures (1 <= |d.name| <= 255 && Phone.PhoneShape(d.contact.phone) && !Email.EmailShape(d.contact.email))
            ==> r == Err(ErrorInvalidEmail)
  {
    match CompanyNameOf(d.name)
    case Err(e) => Err(e)
    case Ok(name) =>
      match Phone.Of(d.contact.phone)
      case Err(e) => Err(e)
      case Ok(phone) =>
        match Email.Of(d.contact.email)
        case Err(e) => Err(e)
        case Ok(email) =>
          Ok(Company(d.id, d.fingerprint, name, d.address, d.legalStatus, phone, email, d.createdAt, d.updatedAt))
  }

  /** Every company is rebuilt, unchanged, from its own data. */
  lemma DataRoundTrip(c: Company)
    ensures FromData(c.Data()) == Ok(c)
  {
    Phone.ValidatePhoneIff(c.contactPhone.value);
    Email.ValidateEmailIff(c.contactEmail.value);
  }

  /** The projection loses nothing: two companies with the same data are the same company. */
  lemma DataInjective(c1: Company, c2: Company)
    requires c1.Data() == c2.Data()
    ensures c1 == c2
  {
    DataRoundTrip(c1);
    DataRoundTrip(c2);
  }

  /** The `id` and `createdAt` getters agree with the projection. */
  lemma GettersAgreeWithData(c: Company)
    ensures c.id == c.Data().id && c.createdAt == c.Data().createdAt
  {
  }

  /** Only the name and the contact decide the outcome: id, fingerprint, address, legal status and timestamps are never checked. */
  lemma FromDataChecksOnlyNameAndContact(d1: CompanyData, d2: CompanyData)
    requires d1.name == d2.name && d1.contact == d2.contact
    ensures FromData(d1).Ok? <==> FromData(d2).Ok?
    ensures FromData(d1).Err? ==> FromData(d1) == FromData(d2)
  {
  }

  /** From the use-case tests: an empty name is reported first, although the phone "123456789" is also invalid. */
  lemma EmptyNameReportedFirst(d: CompanyData)
    requires d.name == "" && d.contact.phone == "123456789"
    ensures FromData(d) == Err(ErrorInvalidCompanyName)
  {
  }

  /** `CompanyName.of` refuses the empty name and every name longer than 255 characters. */
  lemma CompanyNameBounds(value: string)
    requires value == [] || |value| > 255
    ensures CompanyNameOf(value) == Err(ErrorInvalidCompanyName)
  {
  }
}
