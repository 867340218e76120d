/**
  The `DrivingSchool` entity: built from its plain data by `fromData`, which
  validates the phone and then the e-mail, and read back through `data`.
 */
module DrivingSchools {
  import opened ErrorService
  import opened Errors
  import opened Address
  import opened Hours
  import Phone
  import Email
  import Companies

  type DrivingSchoolId = string
  type DrivingSchoolFingerprint = string

  /** `Days`: the seven day names. */
  datatype Day = Monday | Tuesday | Wednesday | Thursday | Friday | Saturday | Sunday

  /** The day name as the source spells it. */
  function DayName(d: Day): string {
    match d
    case Monday => "monday"
    case Tuesday => "tuesday"
    case Wednesday => "wednesday"
    case Thursday => "thursday"
    case Friday => "friday"
    case Saturday => "saturday"
    case Sunday => "sunday"
  }

  /** The day a name denotes, if it is one of the seven. */
  function DayOfName(name: string): (r: Option<Day>)
    ensures r.Some? ==> DayName(r.value) == name
  {
    if name == "monday" then Some(Monday)
    else if name == "tuesday" then Some(Tuesday)
    else if name == "wednesday" then Some(Wednesday)
    else if name == "thursday" then Some(Thursday)
    else if name == "friday" then Some(Friday)
    else if name == "saturday" then Some(Saturday)
    else if name == "sunday" then Some(Sunday)
    else None
  }

  /** Exactly seven names are days, each naming one day. */
  lemma DayNamesRoundTrip(d: Day, name: string)
    ensures DayOfName(DayName(d)) == Some(d)
    ensures DayOfName(name).None? <==> name !in {"monday", "tuesday", "wednesday", "thursday", "friday", "saturday", "sunday"}
  {
  }

  /** `DrivingSchoolOpeningHours`: one list of `HH:MM` values for each of the seven days. */
  datatype OpeningHours = OpeningHours(
    monday: seq<HoursAndMinutes>,
    tuesday: seq<HoursAndMinutes>,
    wednesday: seq<HoursAndMinutes>,
    thursday: seq<HoursAndMinutes>,
    friday: seq<HoursAndMinutes>,
    saturday: seq<HoursAndMinutes>,
    sunday: seq<HoursAndMinutes>)
  {
    /** The record read as a function of the day. */
    function On(d: Day): seq<HoursAndMinutes> {
      match d
      case Monday => monday
      case Tuesday => tuesday
      case Wednesday => wednesday
      case Thursday => thursday
      case Friday => friday
      case Saturday => saturday
      case Sunday => sunday
    }
  }

  /** Two records of opening hours are equal exactly when they agree on every day. */
  lemma OpeningHoursExtensional(a: OpeningHours, b: OpeningHours)
    ensures a == b <==> forall d: Day :: a.On(d) == b.On(d)
  {
    if forall d: Day :: a.On(d) == b.On(d) {
      assert a.On(Monday) == b.On(Monday) && a.On(Tuesday) == b.On(Tuesday);
      assert a.On(Wednesday) == b.On(Wednesday) && a.On(Thursday) == b.On(Thursday);
      assert a.On(Friday) == b.On(Friday) && a.On(Saturday) == b.On(Saturday);
      assert a.On(Sunday) == b.On(Sunday);
    }
  }

  /** The plain record `DrivingSchool.data` returns and `DrivingSchool.fromData` takes. */
  datatype DrivingSchoolData = DrivingSchoolData(
    id: DrivingSchoolId,
    fingerPrint: DrivingSchoolFingerprint,
    companyId: Companies.CompanyId,
    name: string,
    address: Address,
    phone: string,
    email: string,
    openingHours: OpeningHours,
    createdAt: int,
    updatedAt: int)

  /** An immutable driving school; the `id` and `companyId` getters are the fields of the same names. */
  datatype DrivingSchool = DrivingSchool(
    id: DrivingSchoolId,
    fingerPrint: DrivingSchoolFingerprint,
    companyId: Companies.CompanyId,
    name: string,
    address: Address,
    phone: Phone.Phone,
    email: Email.Email,
    openingHours: OpeningHours,
    createdAt: int,
    updatedAt: int)
  {
    /** `data`: the plain record, with the value objects unwrapped. */
    function Data(): DrivingSchoolData {
      DrivingSchoolData(id, fingerPrint, companyId, name, address, phone.value, email.value,
                        openingHours, createdAt, updatedAt)
    }
  }

  /**
    `DrivingSchool.fromData`: validates the phone, then the e-mail, and
    reports the first failure; every other field is copied unchecked.
   */
  function FromData(d: DrivingSchoolData): (r: Result<DrivingSchool, Error>)
    ensures r.Ok? <==> Phone.PhoneShape(d.phone) && Email.EmailShape(d.email)
    ensures r.Ok? ==> r.value.Data() == d
    ensures !Phone.PhoneShape(d.phone) ==> r == Err(ErrorInvalidPhoneNumber)
    ensures (Phone.PhoneShape(d.phone) && !Email.EmailShape(d.email)) ==> r == Err(ErrorInvalidEmail)
  {
    match Phone.Of(d.phone)
    case Err(e) => Err(e)
    case Ok(phone) =>
      match Email.Of(d.email)
      case Err(e) => Err(e)
      case Ok(email) =>
        Ok(DrivingSchool(d.id, d.fingerPrint, d.companyId, d.name, d.address, phone, email,
                         d.openingHours, d.createdAt, d.updatedAt))
  }

  /** Every driving school is rebuilt, unchanged, from its own data. */
  lemma DataRoundTrip(s: DrivingSchool)
    ensures FromData(s.Data()) == Ok(s)
  {
    Phone.ValidatePhoneIff(s.phone.value);
    Email.ValidateEmailIff(s.email.value);
  }

  /** The projection loses nothing: two driving schools with the same data are the same. */
  lemma DataInjective(s1: DrivingSchool, s2: DrivingSchool)
    requires s1.Data() == s2.Data()
    ensures s1 == s2
  {
    DataRoundTrip(s1);
    DataRoundTrip(s2);
  }

  /** The `id` and `companyId` getters agree with the projection. */
  lemma GettersAgreeWithData(s: DrivingSchool)
    ensures s.id == s.Data().id && s.companyId == s.Data().companyId
  {
  }

  /** Only the phone and the e-mail decide the outcome; name, address, opening hours, ids and timestamps are never checked. */
  lemma FromDataChecksOnlyContact(d1: DrivingSchoolData, d2: DrivingSchoolData)
    requires d1.phone == d2.phone && d1.email == d2.email
    ensures FromData(d1).Ok? <==> FromData(d2).Ok?
    ensures FromData(d1).Err? ==> FromData(d1) == FromData(d2)
  {
  }

  /** Validation never reads the company id: changing it only changes the built school's company id. */
  lemma FromDataIgnoresCompanyId(d: DrivingSchoolData, companyId: Companies.CompanyId)
    ensures FromData(d.(companyId := companyId)).Ok? <==> FromData(d).Ok?
    ensures FromData(d).Ok? ==> FromData(d.(companyId := companyId)) == Ok(FromData(d).value.(companyId := companyId))
  {
  }
}
