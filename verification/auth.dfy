/**
 * The authentication provider hook: the signed-in user, a loading flag and the
 * `auth_session` storage entry, updated by session restore, sign-up, sign-in and sign-out
 * on top of the account service.
 */
module Auth {
  import opened Wrappers
  import opened Fixtures
  import opened AuthApi

  datatype UserType = PassengerUser | DriverUser

  /** The service record the user was built from. */
  datatype Profile = PassengerProfile(passenger: Passenger) | DriverProfile(driver: Driver)

  datatype User = User(id: string, email: Option<string>, userType: UserType, profile: Profile)

  /** The value saved under `auth_session`. */
  datatype Session = Session(user: User, expiresAt: int)

  /**
   * The `auth_session` entry when present: a session record, the empty string (which the
   * restore effect skips), or text that does not parse as a session.
   */
  datatype Stored = Saved(session: Session) | Blank | Unreadable

  datatype SignUpRequest = SignUpPassenger(passengerData: PassengerSignupData) | SignUpDriver(driverData: DriverSignupData)

  datatype Credentials =
    | PassengerCredentials(email: string, password: string)
    | DriverCredentials(employeeId: string, otp: string)

  /** The signed-in user for a passenger record: its id and email, typed as a passenger. */
  function PassengerAccount(p: Passenger): (u: User)
    ensures u.id == p.id && u.email == p.email && u.userType == PassengerUser && u.profile == PassengerProfile(p)
  {
    User(p.id, p.email, PassengerUser, PassengerProfile(p))
  }

  /** The signed-in user for a driver record: its id and no email, typed as a driver. */
  function DriverAccount(d: Driver): (u: User)
    ensures u.id == d.id && u.email.None? && u.userType == DriverUser && u.profile == DriverProfile(d)
  {
    User(d.id, None, DriverUser, DriverProfile(d))
  }

  /** The session saved at sign-in or sign-up time `now`: valid for one hour. */
  function SessionFor(u: User, now: int): Session {
    Session(u, now + SessionLengthMs)
  }

  /** The user and storage entry that restoring leaves behind. */
  datatype Restoration = Restoration(user: Option<User>, entry: Option<Stored>)

  /**
   * Restoring at time `now`: an unexpired session yields its user and stays stored; an
   * expired or unreadable entry is removed; a missing or blank entry is left alone.
   */
  function RestoreFrom(entry: Option<Stored>, now: int): (r: Restoration)
    ensures r.user.Some? <==> entry.Some? && entry.value.Saved? && entry.value.session.expiresAt > now
    ensures r.user.Some? ==> r.user.value == entry.value.session.user
    ensures r.entry.Some? <==> entry.Some? && (entry.value.Blank? || r.user.Some?)
    ensures r.entry.Some? ==> r.entry == entry
  {
    match entry {
      case None => Restoration(None, None)
      case Some(Blank) => Restoration(None, entry)
      case Some(Unreadable) => Restoration(None, None)
      case Some(Saved(session)) =>
        if session.expiresAt > now then Restoration(Some(session.user), entry) else Restoration(None, None)
    }
  }

  /** A session saved at `issuedAt` restores its user for exactly one hour, and is removed after that. */
  lemma RestoreWithinTheHour(u: User, issuedAt: int, now: int)
    ensures now < issuedAt + SessionLengthMs ==>
      RestoreFrom(Some(Saved(SessionFor(u, issuedAt))), now) == Restoration(Some(u), Some(Saved(SessionFor(u, issuedAt))))
    ensures now >= issuedAt + SessionLengthMs ==>
      RestoreFrom(Some(Saved(SessionFor(u, issuedAt))), now) == Restoration(None, None)
  {
  }

  /** Restoring twice at the same time leaves what restoring once leaves. */
  lemma RestoreIdempotent(entry: Option<Stored>, now: int)
    ensures RestoreFrom(RestoreFrom(entry, now).entry, now) == RestoreFrom(entry, now)
  {
  }

  /** `useAuthProvider`: the signed-in user, the loading flag and the saved session. */
  class AuthProvider {
    const accounts: Registry
    var user: Option<User>
    var loading: bool
    /** The `auth_session` storage entry. */
    var stored: Option<Stored>

    ghost predicate Valid()
      reads this, accounts
    {
      accounts.Valid()
    }

    /** A provider starts signed out and idle over the given accounts and storage. */
    constructor (accounts: Registry, stored: Option<Stored>)
      requires accounts.Valid()
      ensures this.accounts == accounts && this.stored == stored
      ensures user == None && !loading
      ensures Valid()
    {
      this.accounts := accounts;
      this.stored := stored;
      user := None;
      loading := false;
    }

    /** The mount effect: adopts an unexpired saved session, and clears a stale or unreadable one. */
    method Restore(now: int)
      requires Valid()
      modifies this
      ensures stored == RestoreFrom(old(stored), now).entry
      ensures user == if RestoreFrom(old(stored), now).user.Some? then RestoreFrom(old(stored), now).user else old(user)
      ensures loading == old(loading)
      ensures Valid()
    {
      if stored.Some? && !stored.value.Blank? {
        match stored.value {
          case Saved(session) =>
            if session.expiresAt > now {
              user := Some(session.user);
            } else {
              stored := None;
            }
          case Unreadable =>
            stored := None;
        }
      }
    }

    /**
     * Passenger sign-up registers the passenger, signs in with the same email, and saves a
     * one-hour session for the new record. Driver sign-up only registers the driver. A
     * failure reports the service's message and leaves the user and the saved session as
     * they were; `newId` stands for the creation time rendered as a string.
     */
    method SignUp(request: SignUpRequest, newId: string, now: int) returns (r: Outcome)
      requires Valid()
      modifies this, accounts
      ensures Valid() && !loading
      ensures request.SignUpPassenger? ==> accounts.drivers == old(accounts.drivers)
      ensures request.SignUpPassenger? && !EmailFree(old(accounts.passengers), request.passengerData.email) ==>
        && r == Fail("Email already registered")
        && user == old(user) && stored == old(stored) && accounts.passengers == old(accounts.passengers)
      ensures request.SignUpPassenger? && EmailFree(old(accounts.passengers), request.passengerData.email) ==>
        && r == Pass
        && user == Some(PassengerAccount(NewPassenger(request.passengerData, newId)))
        && stored == Some(Saved(SessionFor(user.value, now)))
        && accounts.passengers == old(accounts.passengers) + [NewPassenger(request.passengerData, newId)]
      ensures request.SignUpDriver? ==> user == old(user) && stored == old(stored) && accounts.passengers == old(accounts.passengers)
      ensures request.SignUpDriver? ==>
        (r == Pass <==> EmployeeIdFree(old(accounts.drivers), request.driverData.employeeId))
      ensures request.SignUpDriver? && r == Pass ==>
        accounts.drivers == old(accounts.drivers) + [NewDriver(request.driverData, newId)]
      ensures request.SignUpDriver? && r != Pass ==>
        r == Fail("Employee ID already registered") && accounts.drivers == old(accounts.drivers)
    {
      loading := true;
      match request {
        case SignUpPassenger(data) =>
          ghost var before := accounts.passengers;
          var response := accounts.PassengerSignup(data, newId);
          if response.Err? {
            r := Fail(response.message);
          } else {
            var login := PassengerLogin(accounts.passengers, data.email, data.password, now);
            SignupThenLogin(before, data, newId, data.password, now);
            assert login.Ok?;
            var account := PassengerAccount(response.value);
            user := Some(account);
            stored := Some(Saved(SessionFor(account, now)));
            r := Pass;
          }
        case SignUpDriver(data) =>
          var response := accounts.DriverSignup(data, newId);
          r := if response.Err? then Fail(response.message) else Pass;
      }
      loading := false;
    }

    /**
     * Sign-in with a passenger's email or a driver's employee id and password; on success
     * the user is set and a one-hour session saved, on failure nothing but the loading flag
     * changes.
     */
    method SignIn(credentials: Credentials, now: int) returns (r: Outcome)
      requires Valid()
      modifies this
      ensures Valid() && !loading
      ensures credentials.PassengerCredentials? ==>
        var login := PassengerLogin(accounts.passengers, credentials.email, credentials.password, now);
        && (r == Pass <==> login.Ok?)
        && (login.Ok? ==> user == Some(PassengerAccount(login.value.user)) && stored == Some(Saved(SessionFor(user.value, now))))
        && (login.Err? ==> r == Fail(login.message) && user == old(user) && stored == old(stored))
      ensures credentials.DriverCredentials? ==>
        var login := DriverLogin(accounts.drivers, credentials.employeeId, credentials.otp);
        && (r == Pass <==> login.Ok?)
        && (login.Ok? ==> user == Some(DriverAccount(login.value)) && stored == Some(Saved(SessionFor(user.value, now))))
        && (login.Err? ==> r == Fail(login.message) && user == old(user) && stored == old(stored))
    {
      loading := true;
      match credentials {
        case PassengerCredentials(email, password) =>
          var login := PassengerLogin(accounts.passengers, email, password, now);
          if login.Err? {
            r := Fail(login.message);
          } else {
            var account := PassengerAccount(login.value.user);
            user := Some(account);
            stored := Some(Saved(SessionFor(account, now)));
            r := Pass;
          }
        case DriverCredentials(employeeId, otp) =>
          var login := DriverLogin(accounts.drivers, employeeId, otp);
          if login.Err? {
            r := Fail(login.message);
          } else {
            var account := DriverAccount(login.value);
            user := Some(account);
            stored := Some(Saved(SessionFor(account, now)));
            r := Pass;
          }
      }
      loading := false;
    }

    /** Sign-out removes the saved session and the user. */
    method SignOut()
      requires Valid()
      modifies this
      ensures user == None && stored == None && !loading
      ensures Valid()
    {
      loading := true;
      stored := None;
      user := None;
      loading := false;
    }

    /** Forwards a password request to the service; the provider's state is not touched. */
    method SendDriverOtp(employeeId: string, draw: int) returns (r: Result<string>)
      requires 0 <= draw < 900000
      ensures r == AuthApi.SendDriverOtp(accounts.drivers, employeeId, draw)
    {
      r := AuthApi.SendDriverOtp(accounts.drivers, employeeId, draw);
    }
  }

  /**
   * A passenger who signs up at time `now` and reloads the page before the hour is out is
   * restored as the same user.
   */
  lemma {:induction false} SignUpSurvivesReload(data: PassengerSignupData, newId: string, now: int, later: int)
    requires now <= later < now + SessionLengthMs
    ensures RestoreFrom(Some(Saved(SessionFor(PassengerAccount(NewPassenger(data, newId)), now))), later).user
      == Some(PassengerAccount(NewPassenger(data, newId)))
  {
    RestoreWithinTheHour(PassengerAccount(NewPassenger(data, newId)), now, later);
  }
}
