/**
 * The account half of the mock service layer: passenger and driver sign-up against the
 * in-memory account lists, passenger login, the driver one-time-password flow and the
 * driver status query. The two account lists are module-level arrays that sign-up
 * pushes onto, so they live in the `Registry` class; the queries read them as values.
 */
module AuthApi {
  import opened Wrappers
  import opened Seqs
  import opened Fixtures

  /** Sessions issued by the service last one hour. */
  const SessionLengthMs := 3600000

  const RegistrationPending := "Driver registration submitted. Awaiting admin verification."

  datatype PassengerSignupData = PassengerSignupData(
    email: string,
    password: string,
    fullName: string,
    phoneNumber: Option<string>,
    preferredLanguage: Option<string>)

  datatype DriverSignupData = DriverSignupData(
    employeeId: string,
    fullName: string,
    phoneNumber: string,
    licenseNumber: string)

  datatype ApiSession = ApiSession(accessToken: string, refreshToken: string, expiresAt: int)

  /** A successful passenger login: the stored record and a fresh session. */
  datatype Login = Login(user: Passenger, session: ApiSession)

  datatype DriverStatus = DriverStatus(employeeId: string, fullName: string, isVerified: bool, isActive: bool)

  function WithEmail(email: string): Passenger -> bool { (p: Passenger) => p.email == Some(email) }

  function WithEmployeeId(employeeId: string): Driver -> bool { (d: Driver) => d.employeeId == employeeId }

  function SignInAllowed(employeeId: string): Driver -> bool {
    (d: Driver) => d.employeeId == employeeId && d.isVerified && d.isActive
  }

  /** No passenger has the given email. */
  predicate EmailFree(ps: seq<Passenger>, email: string) {
    forall i :: 0 <= i < |ps| ==> ps[i].email != Some(email)
  }

  /** No driver has the given employee id. */
  predicate EmployeeIdFree(ds: seq<Driver>, employeeId: string) {
    forall i :: 0 <= i < |ds| ==> ds[i].employeeId != employeeId
  }

  // ---- decimal rendering of the one-time password ----

  function DigitChar(d: int): (c: char)
    requires 0 <= d < 10
    ensures '0' <= c <= '9' && c as int - '0' as int == d
  {
    ('0' as int + d) as char
  }

  /** `n.toString()` for a non-negative integer. */
  function DecimalString(n: nat): (s: string)
    ensures |s| >= 1
    ensures forall i :: 0 <= i < |s| ==> '0' <= s[i] <= '9'
    decreases n
  {
    if n < 10 then [DigitChar(n)] else DecimalString(n / 10) + [DigitChar(n % 10)]
  }

  /** The number a string of decimal digits denotes. */
  function DecimalValue(s: string): int
    requires forall i :: 0 <= i < |s| ==> '0' <= s[i] <= '9'
  {
    if s == [] then 0 else DecimalValue(s[..|s| - 1]) * 10 + (s[|s| - 1] as int - '0' as int)
  }

  function Pow10(k: nat): (p: nat)
    ensures p >= 1
  {
    if k == 0 then 1 else 10 * Pow10(k - 1)
  }

  /** Reading back the rendered digits gives the number. */
  lemma {:induction false} DecimalRoundTrip(n: nat)
    ensures DecimalValue(DecimalString(n)) == n
    decreases n
  {
    var s := DecimalString(n);
    if n >= 10 {
      assert s[..|s| - 1] == DecimalString(n / 10);
      DecimalRoundTrip(n / 10);
    }
  }

  /** A number with k + 1 digits renders as k + 1 characters. */
  lemma {:induction false} DecimalLength(n: nat, k: nat)
    requires Pow10(k) <= n < Pow10(k + 1)
    ensures |DecimalString(n)| == k + 1
    decreases k
  {
    if k > 0 {
      assert Pow10(k) == 10 * Pow10(k - 1);
      assert Pow10(k + 1) == 10 * Pow10(k);
      assert Pow10(k - 1) <= n / 10 < Pow10(k);
      DecimalLength(n / 10, k - 1);
    }
  }

  /** Every number the password generator can draw renders as six digits. */
  lemma SixDigits(n: nat)
    requires 100000 <= n < 1000000
    ensures |DecimalString(n)| == 6
  {
    assert Pow10(5) == 100000 && Pow10(6) == 1000000;
    DecimalLength(n, 5);
  }

  // ---- account records created by sign-up ----

  /** The passenger record a successful sign-up stores. */
  function NewPassenger(data: PassengerSignupData, newId: string): (p: Passenger)
    ensures p.id == newId && p.email == Some(data.email)
    ensures p.fullName == Some(data.fullName) && p.phoneNumber == data.phoneNumber
    ensures p.preferredLanguage != ""
    ensures data.preferredLanguage.Some? && data.preferredLanguage.value != "" ==>
      p.preferredLanguage == data.preferredLanguage.value
    ensures data.preferredLanguage.None? || data.preferredLanguage.value == "" ==> p.preferredLanguage == "en"
  {
    var language := if data.preferredLanguage.Some? && data.preferredLanguage.value != "" then data.preferredLanguage.value else "en";
    Passenger(newId, Some(data.fullName), data.phoneNumber, language, Some(data.email))
  }

  /** The driver record a successful sign-up stores: awaiting verification and inactive. */
  function NewDriver(data: DriverSignupData, newId: string): (d: Driver)
    ensures d.id == newId && d.employeeId == data.employeeId && d.fullName == data.fullName
    ensures d.phoneNumber == Some(data.phoneNumber) && d.licenseNumber == Some(data.licenseNumber)
    ensures !d.isVerified && !d.isActive
  {
    Driver(newId, data.employeeId, data.fullName, Some(data.phoneNumber), Some(data.licenseNumber), false, false)
  }

  // ---- queries over the account lists ----

  /**
   * Passenger login looks the passenger up by email only; the password is never compared.
   * The session expires one hour after `now`.
   */
  function PassengerLogin(passengers: seq<Passenger>, email: string, password: string, now: int): (r: Result<Login>)
    ensures r.Err? <==> EmailFree(passengers, email)
    ensures r.Err? ==> r.message == "Invalid credentials"
    ensures r.Ok? ==> exists k :: (
      && 0 <= k < |passengers| && passengers[k] == r.value.user && passengers[k].email == Some(email)
      && forall j :: 0 <= j < k ==> passengers[j].email != Some(email))
    ensures r.Ok? ==> r.value.session == ApiSession("mock-access-token", "mock-refresh-token", now + SessionLengthMs)
  {
    var user := Find(passengers, WithEmail(email));
    if user.None? then Err("Invalid credentials")
    else
      FindIsFirst(passengers, WithEmail(email));
      Ok(Login(user.value, ApiSession("mock-access-token", "mock-refresh-token", now + SessionLengthMs)))
  }

  /**
   * Issues a one-time password for a verified, active driver. `draw` stands for the random
   * draw: the password is `100000 + draw` in decimal. An unknown employee id is reported
   * before an unverified or inactive account.
   */
  function SendDriverOtp(drivers: seq<Driver>, employeeId: string, draw: int): (r: Result<string>)
    requires 0 <= draw < 900000
    ensures EmployeeIdFree(drivers, employeeId) ==> r == Err("Employee ID not found")
    ensures r.Ok? <==> exists k :: (
      && 0 <= k < |drivers| && drivers[k].employeeId == employeeId
      && (forall j :: 0 <= j < k ==> drivers[j].employeeId != employeeId)
      && drivers[k].isVerified && drivers[k].isActive)
    ensures r.Err? && !EmployeeIdFree(drivers, employeeId) ==> r.message == "Driver account not verified or inactive"
    ensures r.Ok? ==> |r.value| == 6 && (forall i :: 0 <= i < 6 ==> '0' <= r.value[i] <= '9')
    ensures r.Ok? ==> DecimalValue(r.value) == 100000 + draw
  {
    var driver := Find(drivers, WithEmployeeId(employeeId));
    if driver.None? then Err("Employee ID not found")
    else
      FindIsFirst(drivers, WithEmployeeId(employeeId));
      if !driver.value.isVerified || !driver.value.isActive then Err("Driver account not verified or inactive")
      else
        SixDigits(100000 + draw);
        DecimalRoundTrip(100000 + draw);
        Ok(DecimalString(100000 + draw))
  }

  /**
   * Driver login checks only that the password has six characters, then looks for a
   * verified, active driver with the employee id. The password's value is never compared.
   */
  function DriverLogin(drivers: seq<Driver>, employeeId: string, otp: string): (r: Result<Driver>)
    ensures |otp| != 6 ==> r == Err("Invalid OTP format")
    ensures |otp| == 6 ==> (r.Ok? <==> exists k :: (
      && 0 <= k < |drivers| && drivers[k].employeeId == employeeId
      && drivers[k].isVerified && drivers[k].isActive))
    ensures |otp| == 6 && r.Err? ==> r.message == "Driver not found or not verified"
    ensures r.Ok? ==> r.value.employeeId == employeeId && r.value.isVerified && r.value.isActive
    ensures r.Ok? ==> exists k :: (
      && 0 <= k < |drivers| && drivers[k] == r.value
      && forall j :: 0 <= j < k ==> !(drivers[j].employeeId == employeeId && drivers[j].isVerified && drivers[j].isActive))
  {
    if otp == "" || |otp| != 6 then Err("Invalid OTP format")
    else
      var driver := Find(drivers, SignInAllowed(employeeId));
      FindFirstIfAny(drivers, SignInAllowed(employeeId));
      if driver.None? then Err("Driver not found or not verified") else Ok(driver.value)
  }

  /** The verification state of the first driver with the employee id. */
  function GetDriverStatus(drivers: seq<Driver>, employeeId: string): (r: Result<DriverStatus>)
    ensures r.Err? <==> EmployeeIdFree(drivers, employeeId)
    ensures r.Err? ==> r.message == "Driver not found"
    ensures r.Ok? ==> exists k :: (
      && 0 <= k < |drivers| && drivers[k].employeeId == employeeId
      && (forall j :: 0 <= j < k ==> drivers[j].employeeId != employeeId)
      && r.value == DriverStatus(employeeId, drivers[k].fullName, drivers[k].isVerified, drivers[k].isActive))
  {
    var driver := Find(drivers, WithEmployeeId(employeeId));
    if driver.None? then Err("Driver not found")
    else
      FindIsFirst(drivers, WithEmployeeId(employeeId));
      var d := driver.value;
      Ok(DriverStatus(d.employeeId, d.fullName, d.isVerified, d.isActive))
  }

  // ---- properties relating the operations ----

  /** Login never looks at the password. */
  lemma LoginIgnoresPassword(passengers: seq<Passenger>, email: string, password: string, other: string, now: int)
    ensures PassengerLogin(passengers, email, password, now) == PassengerLogin(passengers, email, other, now)
  {
  }

  /** Once a passenger has signed up, logging in with the email returns exactly that record. */
  lemma {:induction false} SignupThenLogin(passengers: seq<Passenger>, data: PassengerSignupData, newId: string, password: string, now: int)
    requires EmailFree(passengers, data.email)
    ensures PassengerLogin(passengers + [NewPassenger(data, newId)], data.email, password, now)
      == Ok(Login(NewPassenger(data, newId), ApiSession("mock-access-token", "mock-refresh-token", now + SessionLengthMs)))
  {
    var p := NewPassenger(data, newId);
    FindAppend(passengers, [p], WithEmail(data.email));
    FindFirst([p], WithEmail(data.email), 0);
  }

  /**
   * When employee ids are unique, a password is issued exactly when a six-character
   * password lets the driver in, and that login returns the driver the password was issued to.
   */
  lemma {:induction false} OtpIssuedIffLoginSucceeds(drivers: seq<Driver>, employeeId: string, draw: int, otp: string)
    requires EmployeeIdsDistinct(drivers) && 0 <= draw < 900000 && |otp| == 6
    ensures SendDriverOtp(drivers, employeeId, draw).Ok? <==> DriverLogin(drivers, employeeId, otp).Ok?
    ensures DriverLogin(drivers, employeeId, otp).Ok? ==>
      GetDriverStatus(drivers, employeeId) == Ok(DriverStatus(employeeId, DriverLogin(drivers, employeeId, otp).value.fullName, true, true))
  {
    var login := DriverLogin(drivers, employeeId, otp);
    if login.Ok? {
      var k :| 0 <= k < |drivers| && drivers[k].employeeId == employeeId && drivers[k].isVerified && drivers[k].isActive;
      forall j | 0 <= j < k ensures drivers[j].employeeId != employeeId {
        assert drivers[j].employeeId != drivers[k].employeeId;
      }
    }
  }

  /** An issued password always passes the login format check. */
  lemma IssuedOtpIsWellFormed(drivers: seq<Driver>, employeeId: string, draw: int)
    requires 0 <= draw < 900000 && SendDriverOtp(drivers, employeeId, draw).Ok?
    ensures DriverLogin(drivers, employeeId, SendDriverOtp(drivers, employeeId, draw).value) != Err("Invalid OTP format")
  {
  }

  /** A freshly registered driver cannot get a password or log in, and shows as unverified. */
  lemma {:induction false} NewDriverAwaitsVerification(drivers: seq<Driver>, data: DriverSignupData, newId: string, draw: int, otp: string)
    requires EmployeeIdFree(drivers, data.employeeId) && 0 <= draw < 900000
    ensures SendDriverOtp(drivers + [NewDriver(data, newId)], data.employeeId, draw) == Err("Driver account not verified or inactive")
    ensures DriverLogin(drivers + [NewDriver(data, newId)], data.employeeId, otp).Err?
    ensures GetDriverStatus(drivers + [NewDriver(data, newId)], data.employeeId) == Ok(DriverStatus(data.employeeId, data.fullName, false, false))
  {
    var d := NewDriver(data, newId);
    var all := drivers + [d];
    FindAppend(drivers, [d], WithEmployeeId(data.employeeId));
    FindFirst([d], WithEmployeeId(data.employeeId), 0);
  }

  /** Adding a passenger whose email is unused keeps emails unique. */
  lemma AddPassengerKeepsEmailsDistinct(passengers: seq<Passenger>, p: Passenger)
    requires EmailsDistinct(passengers) && p.email.Some? && EmailFree(passengers, p.email.value)
    ensures EmailsDistinct(passengers + [p])
  {
    var all := passengers + [p];
    forall i, j | 0 <= i < j < |all| && all[i].email.Some? ensures all[i].email != all[j].email {
      if j == |passengers| { assert all[i] == passengers[i]; }
    }
  }

  /** Adding a driver whose employee id is unused keeps employee ids unique. */
  lemma AddDriverKeepsEmployeeIdsDistinct(drivers: seq<Driver>, d: Driver)
    requires EmployeeIdsDistinct(drivers) && EmployeeIdFree(drivers, d.employeeId)
    ensures EmployeeIdsDistinct(drivers + [d])
  {
    var all := drivers + [d];
    forall i, j | 0 <= i < j < |all| ensures all[i].employeeId != all[j].employeeId {
      if j == |drivers| { assert all[i] == drivers[i]; }
    }
  }

  // ---- the mutable account lists ----

  /** The driver and passenger arrays the service reads and sign-up appends to. */
  class Registry {
    var drivers: seq<Driver>
    var passengers: seq<Passenger>

    /** Sign-up keeps emails and employee ids unique. */
    ghost predicate Valid()
      reads this
    {
      EmailsDistinct(passengers) && EmployeeIdsDistinct(drivers)
    }

    /** The lists start as the fixtures. */
    constructor ()
      ensures drivers == Drivers && passengers == Passengers
      ensures Valid()
    {
      drivers := Drivers;
      passengers := Passengers;
      new;
      SeedAccountsWellFormed();
    }

    /**
     * Registers a passenger unless the email is taken. The password is accepted but never
     * stored; `newId` stands for the creation time rendered as a string.
     */
    method PassengerSignup(data: PassengerSignupData, newId: string) returns (r: Result<Passenger>)
      requires Valid()
      modifies this
      ensures Valid()
      ensures drivers == old(drivers)
      ensures !EmailFree(old(passengers), data.email) ==>
        r == Err("Email already registered") && passengers == old(passengers)
      ensures EmailFree(old(passengers), data.email) ==>
        r == Ok(NewPassenger(data, newId)) && passengers == old(passengers) + [NewPassenger(data, newId)]
    {
      var existing := Find(passengers, WithEmail(data.email));
      if existing.Some? {
        return Err("Email already registered");
      }
      var user := NewPassenger(data, newId);
      AddPassengerKeepsEmailsDistinct(passengers, user);
      passengers := passengers + [user];
      return Ok(user);
    }

    /** Registers a driver, unverified and inactive, unless the employee id is taken. */
    method DriverSignup(data: DriverSignupData, newId: string) returns (r: Result<string>)
      requires Valid()
      modifies this
      ensures Valid()
      ensures passengers == old(passengers)
      ensures !EmployeeIdFree(old(drivers), data.employeeId) ==>
        r == Err("Employee ID already registered") && drivers == old(drivers)
      ensures EmployeeIdFree(old(drivers), data.employeeId) ==>
        r == Ok(RegistrationPending) && drivers == old(drivers) + [NewDriver(data, newId)]
    {
      var existing := Find(drivers, WithEmployeeId(data.employeeId));
      if existing.Some? {
        return Err("Employee ID already registered");
      }
      var driver := NewDriver(data, newId);
      AddDriverKeepsEmployeeIdsDistinct(drivers, driver);
      drivers := drivers + [driver];
      return Ok(RegistrationPending);
    }
  }
}
