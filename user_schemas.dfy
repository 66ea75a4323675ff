/**
  The input schemas of src/core/schemas/user.py with the bounds of
  src/settings/application.py: the date-of-birth validator shared by the
  create and update schemas, and the password rules of the create schema.
  Today's date is a parameter, and the result of pydantic's `validate_email`
  on the address is passed in as a boolean.  Fields are validated in
  declaration order (the inherited date_of_birth first), and failing fields
  are listed in that order.
*/
module UserSchemas {
  import opened Wrappers
  import opened Users

  const MinimumYearOfBirth: int := 1900
  const MinimumAge: int := 18
  const MinPasswordLength: nat := 8

  datatype DateOfBirthError = InFuture | BeforeMinimumYear | TooYoung

  /**
    What building a schema raises: a ValidationError listing the fields that
    failed, or the KeyError a validator lets escape.
  */
  datatype SchemaError = ValidationError(fields: seq<string>) | KeyError(key: string)

  datatype CreateUserSchema = CreateUserSchema(
    dateOfBirth: Date, email: string, password: string, repeatPassword: string)

  /** Each field is None when not given, and Some(None) when given as null. */
  datatype UpdateUserSchema = UpdateUserSchema(
    dateOfBirth: Option<Option<Date>>, firstName: Option<Option<string>>, lastName: Option<Option<string>>)

  /** Lexicographic order on dates: is `a` after `b`? */
  predicate Later(a: Date, b: Date)
  {
    a.year > b.year || (a.year == b.year && (a.month > b.month || (a.month == b.month && a.day > b.day)))
  }

  /** Age in whole years on `today`: the year difference, less one before the birthday. */
  function AgeInYears(dob: Date, today: Date): int
  {
    var beforeBirthday := today.month < dob.month || (today.month == dob.month && today.day < dob.day);
    today.year - dob.year - (if beforeBirthday then 1 else 0)
  }

  function Check(ok: bool, field: string): seq<string>
  {
    if ok then [] else [field]
  }

  /** `validate_date_of_birth`: a missing date passes unchanged. */
  function ValidateDateOfBirth(dob: Option<Date>, today: Date): (r: Result<Option<Date>, DateOfBirthError>)
    ensures r.Ok? ==> r.value == dob
    ensures dob.None? ==> r.Ok?
    ensures dob.Some? ==> (r.Ok? <==> !Later(dob.value, today)
                                      && dob.value.year >= MinimumYearOfBirth
                                      && today.year - dob.value.year >= MinimumAge)
    ensures r == Err(InFuture) <==> dob.Some? && Later(dob.value, today)
    ensures r == Err(BeforeMinimumYear) <==> dob.Some? && !Later(dob.value, today) && dob.value.year < MinimumYearOfBirth
  {
    if dob.None? then Ok(dob)
    else if Later(dob.value, today) then Err(InFuture)
    else if dob.value.year < MinimumYearOfBirth then Err(BeforeMinimumYear)
    else if today.year - dob.value.year < MinimumAge then Err(TooYoung)
    else Ok(dob)
  }

  /**
    The age check compares years only: every accepted date of birth belongs
    to someone at least 17, everyone at least 18 born in or after 1900 is
    accepted, and in the first days of a year some 17-year-olds pass.
  */
  lemma DateOfBirthYearsOnly(dob: Date, today: Date)
    ensures ValidateDateOfBirth(Some(dob), today).Ok? ==> AgeInYears(dob, today) >= MinimumAge - 1
    ensures AgeInYears(dob, today) >= MinimumAge && dob.year >= MinimumYearOfBirth ==> ValidateDateOfBirth(Some(dob), today).Ok?
    ensures ValidateDateOfBirth(Some(Date(2000, 12, 31)), Date(2018, 1, 1)).Ok?
            && AgeInYears(Date(2000, 12, 31), Date(2018, 1, 1)) == 17
  {
  }

  /**
    `CreateUserSchema` as written: when password fails its length bound it is
    missing from `info.data`, so the repeat_password validator, which runs
    whenever repeat_password itself is long enough, raises KeyError instead
    of a ValidationError.
  */
  function ValidateCreateUserAsWritten(dateOfBirth: Date, email: string, emailIsValid: bool,
                                       password: string, repeatPassword: string, today: Date)
    : (r: Result<CreateUserSchema, SchemaError>)
    ensures r == Err(KeyError("password")) <==> |repeatPassword| >= MinPasswordLength && |password| < MinPasswordLength
  {
    if |repeatPassword| >= MinPasswordLength && |password| < MinPasswordLength then Err(KeyError("password"))
    else ValidateCreateUser(dateOfBirth, email, emailIsValid, password, repeatPassword, today)
  }

  /**
    `CreateUserSchema` with the mismatch check made only when password
    validated: each failing field is reported, repeat_password when it is too
    short or differs from a valid password.
  */
  function ValidateCreateUser(dateOfBirth: Date, email: string, emailIsValid: bool,
                              password: string, repeatPassword: string, today: Date)
    : (r: Result<CreateUserSchema, SchemaError>)
    ensures r.Ok? <==> ValidateDateOfBirth(Some(dateOfBirth), today).Ok? && emailIsValid
                       && |password| >= MinPasswordLength && |repeatPassword| >= MinPasswordLength
                       && repeatPassword == password
    ensures r.Ok? ==> r.value == CreateUserSchema(dateOfBirth, email, password, repeatPassword)
    ensures r.Err? ==> r.error.ValidationError?
    ensures r.Err? ==> ("date_of_birth" in r.error.fields <==> ValidateDateOfBirth(Some(dateOfBirth), today).Err?)
    ensures r.Err? ==> ("email" in r.error.fields <==> !emailIsValid)
    ensures r.Err? ==> ("password" in r.error.fields <==> |password| < MinPasswordLength)
    ensures r.Err? ==> ("repeat_password" in r.error.fields <==>
                          |repeatPassword| < MinPasswordLength
                          || (|password| >= MinPasswordLength && repeatPassword != password))
  {
    var bad := Check(ValidateDateOfBirth(Some(dateOfBirth), today).Ok?, "date_of_birth")
             + Check(emailIsValid, "email")
             + Check(|password| >= MinPasswordLength, "password")
             + Check(|repeatPassword| >= MinPasswordLength
                     && (|password| >= MinPasswordLength ==> repeatPassword == password), "repeat_password");
    if bad == [] then Ok(CreateUserSchema(dateOfBirth, email, password, repeatPassword))
    else Err(ValidationError(bad))
  }

  /** The two agree exactly where the KeyError is not raised. */
  lemma CreateUserAsWrittenAgrees(dateOfBirth: Date, email: string, emailIsValid: bool,
                                  password: string, repeatPassword: string, today: Date)
    ensures !(|repeatPassword| >= MinPasswordLength && |password| < MinPasswordLength) ==>
              ValidateCreateUserAsWritten(dateOfBirth, email, emailIsValid, password, repeatPassword, today)
              == ValidateCreateUser(dateOfBirth, email, emailIsValid, password, repeatPassword, today)
  {
  }

  /** A short password with a long repeat raises KeyError as written, and a ValidationError on password once corrected. */
  lemma ShortPasswordWitness()
    ensures ValidateCreateUserAsWritten(Date(1990, 1, 1), "test@example.com", true, "pass", "password", Date(2024, 1, 1))
            == Err(KeyError("password"))
    ensures ValidateCreateUser(Date(1990, 1, 1), "test@example.com", true, "pass", "password", Date(2024, 1, 1))
            == Err(ValidationError(["password"]))
  {
    assert |"pass"| == 4 && |"password"| == 8;
    assert ValidateDateOfBirth(Some(Date(1990, 1, 1)), Date(2024, 1, 1)).Ok?;
    assert Check(|"pass"| >= MinPasswordLength, "password") == ["password"];
    assert Check(|"password"| >= MinPasswordLength && (|"pass"| >= MinPasswordLength ==> "password" == "pass"),
                 "repeat_password") == [];
    assert [] + [] + ["password"] + [] == ["password"];
  }

  /** `UpdateUserSchema`: the date-of-birth validator runs only on a date actually given. */
  function ValidateUpdateUser(dateOfBirth: Option<Option<Date>>, firstName: Option<Option<string>>,
                              lastName: Option<Option<string>>, today: Date)
    : (r: Result<UpdateUserSchema, SchemaError>)
    ensures r.Ok? <==> (dateOfBirth.Some? ==> ValidateDateOfBirth(dateOfBirth.value, today).Ok?)
    ensures r.Ok? ==> r.value == UpdateUserSchema(dateOfBirth, firstName, lastName)
    ensures r.Err? ==> r.error == ValidationError(["date_of_birth"])
  {
    if dateOfBirth.Some? && ValidateDateOfBirth(dateOfBirth.value, today).Err? then Err(ValidationError(["date_of_birth"]))
    else Ok(UpdateUserSchema(dateOfBirth, firstName, lastName))
  }

  /** The keys `dict(exclude_unset=True)` keeps: exactly the fields given, null ones included. */
  function SetFields(s: UpdateUserSchema): (keys: set<string>)
    ensures "date_of_birth" in keys <==> s.dateOfBirth.Some?
    ensures "first_name" in keys <==> s.firstName.Some?
    ensures "last_name" in keys <==> s.lastName.Some?
    ensures keys <= {"date_of_birth", "first_name", "last_name"}
  {
    (if s.dateOfBirth.Some? then {"date_of_birth"} else {})
    + (if s.firstName.Some? then {"first_name"} else {})
    + (if s.lastName.Some? then {"last_name"} else {})
  }
}
