/** The login page's decisions: where a signed-in user is sent, the shape an
    e-mail address must have, and the sign-up form's validation chain and
    the profile and card it writes for a new customer. */
module Login {
  import opened Common
  import opened Store

  datatype Route = CompleteProfile | StaffArea | ClientArea

  /** What `ensureProfileAndRedirect` does: navigate, or show an error. */
  datatype Redirect = Navigate(route: Route) | ShowError(message: string)

  const ProfileReadError := "No se pudo cargar tu perfil."

  /** JavaScript truthiness of a nullable string. */
  predicate Truthy(s: Option<string>) {
    s.Some? && s.value != ""
  }

  /** The profile has what the app needs before it can be used. */
  predicate Complete(p: Profile) {
    Truthy(p.fullName) && Truthy(p.birthDate)
  }

  /** `profile.role || "customer"`. */
  function RoleOf(p: Profile): (role: string)
    ensures Truthy(p.role) ==> role == p.role.value
    ensures !Truthy(p.role) ==> role == "customer"
  {
    if Truthy(p.role) then p.role.value else "customer"
  }

  /** The roles that open the staff area. */
  predicate IsStaffRole(role: string) {
    role == "staff" || role == "admin"
  }

  /** The routing decision on the reply of the profile read. */
  function RouteAfterLogin(reply: Reply<Option<Profile>>): (r: Redirect)
    ensures r.ShowError? <==> reply.Err?
    ensures r.ShowError? ==> r.message == ProfileReadError
    ensures r == Navigate(CompleteProfile) <==> reply.Ok? && (reply.value.None? || !Complete(reply.value.value))
    ensures r == Navigate(StaffArea) <==>
      reply.Ok? && reply.value.Some? && Complete(reply.value.value) && IsStaffRole(RoleOf(reply.value.value))
    ensures r == Navigate(ClientArea) <==>
      reply.Ok? && reply.value.Some? && Complete(reply.value.value) && !IsStaffRole(RoleOf(reply.value.value))
  {
    match reply
    case Err(_) => ShowError(ProfileReadError)
    case Ok(found) =>
      if found.None? || !Truthy(found.value.fullName) || !Truthy(found.value.birthDate) then Navigate(CompleteProfile)
      else
        var role := RoleOf(found.value);
        if IsStaffRole(role) then Navigate(StaffArea) else Navigate(ClientArea)
  }

  /** A complete profile without a role is a customer's. */
  lemma NullRoleIsCustomer(p: Profile)
    requires Complete(p) && p.role.None?
    ensures RouteAfterLogin(Ok(Some(p))) == Navigate(ClientArea)
  {
  }

  // ---------------------------------------------------------------------------
  // /^[^\s@]+@[^\s@]+\.[^\s@]+$/

  /** A character the class `[^\s@]` matches. */
  predicate Plain(c: char) {
    !IsSpace(c) && c != '@'
  }

  predicate AllPlain(s: string) {
    forall k :: 0 <= k < |s| ==> Plain(s[k])
  }

  /** A '.' that is neither the first nor the last character. */
  predicate InnerDot(d: string) {
    exists j | 1 <= j < |d| - 1 :: d[j] == '.'
  }

  /** The position of the first '@', or -1. */
  function IndexOfAt(s: string): (k: int)
    ensures -1 <= k < |s|
    ensures k >= 0 ==> s[k] == '@'
    ensures forall j :: 0 <= j < |s| && (k < 0 || j < k) ==> s[j] != '@'
  {
    if s == [] then -1
    else if s[0] == '@' then 0
    else
      var k := IndexOfAt(s[1..]);
      if k < 0 then -1 else k + 1
  }

  /** `isValidEmailFormat`: split at the first '@'; both sides are made of
      plain characters, the left one is non-empty and the right one has an
      inner dot. */
  function IsValidEmailFormat(mail: string): (r: bool)
    // an accepted address has no whitespace, exactly one '@', not in front,
    // and at least five characters (the shortest is "a@b.c")
    ensures r ==> 5 <= |mail| && 0 < IndexOfAt(mail)
    ensures r ==> forall i :: 0 <= i < |mail| ==> !IsSpace(mail[i]) && (mail[i] == '@' <==> i == IndexOfAt(mail))
    ensures '@' !in mail || mail[0] == '@' ==> !r
  {
    var at := IndexOfAt(mail);
    at > 0 && AllPlain(mail[..at]) && AllPlain(mail[at + 1..]) && InnerDot(mail[at + 1..])
  }

  /** What the regular expression matches, read off its parts: a plain run,
      '@', a plain run, '.', a plain run. The positions of '@' and of the
      dot are the two places where the match breaks the input. */
  ghost predicate MatchesEmailPattern(mail: string) {
    exists at, dot ::
      && 0 < at && at + 1 < dot && dot + 1 < |mail|
      && mail[at] == '@' && mail[dot] == '.'
      && AllPlain(mail[..at]) && AllPlain(mail[at + 1..dot]) && AllPlain(mail[dot + 1..])
  }

  /** The check accepts exactly the strings the pattern matches. */
  lemma EmailFormatMatchesPattern(mail: string)
    ensures IsValidEmailFormat(mail) <==> MatchesEmailPattern(mail)
  {
    if IsValidEmailFormat(mail) {
      AcceptedMatches(mail);
    }
    if MatchesEmailPattern(mail) {
      var at, dot :| && 0 < at && at + 1 < dot && dot + 1 < |mail|
        && mail[at] == '@' && mail[dot] == '.'
        && AllPlain(mail[..at]) && AllPlain(mail[at + 1..dot]) && AllPlain(mail[dot + 1..]);
      MatchAccepted(mail, at, dot);
    }
  }

  lemma AcceptedMatches(mail: string)
    requires IsValidEmailFormat(mail)
    ensures MatchesEmailPattern(mail)
  {
    var at := IndexOfAt(mail);
    var d := mail[at + 1..];
    var j :| 1 <= j < |d| - 1 && d[j] == '.';
    var dot := at + 1 + j;
    assert mail[dot] == '.';
    assert mail[at + 1..dot] == d[..j];
    assert mail[dot + 1..] == d[j + 1..];
  }

  lemma MatchAccepted(mail: string, at: int, dot: int)
    requires 0 < at && at + 1 < dot && dot + 1 < |mail|
    requires mail[at] == '@' && mail[dot] == '.'
    requires AllPlain(mail[..at]) && AllPlain(mail[at + 1..dot]) && AllPlain(mail[dot + 1..])
    ensures IsValidEmailFormat(mail)
  {
    assert forall j :: 0 <= j < at ==> mail[j] == mail[..at][j];
    assert IndexOfAt(mail) == at;
    var d := mail[at + 1..];
    assert d[dot - at - 1] == '.';
    forall j | 0 <= j < |d|
      ensures Plain(d[j])
    {
      if j < dot - at - 1 {
        assert d[j] == mail[at + 1..dot][j];
      } else if j > dot - at - 1 {
        assert d[j] == mail[dot + 1..][j - (dot - at)];
      }
    }
  }

  // ---------------------------------------------------------------------------
  // Sign-up

  const NameRequired := "Debes ingresar tu nombre."
  const BirthDateRequired := "Debes ingresar tu fecha de nacimiento."
  const EmailRequired := "Debes ingresar un correo."
  const EmailInvalid := "Ingresa un correo electrónico válido."
  const PasswordTooShort := "La contraseña debe tener al menos 6 caracteres."
  const AlreadyRegistered := "Este correo ya está registrado. Inicia sesión."
  const SignUpFailed := "No se pudo crear la cuenta."
  const ConfirmEmail := "Cuenta creada. Revisa tu correo para confirmar tu cuenta antes de iniciar sesión."
  const ProfileSaveError := "No se pudo guardar tu perfil."

  /** The form's early-return chain: the message of the first check that
      fails, or `None` when the form may be sent. */
  function FirstSignupError(fullName: string, birthDate: string, email: string, password: string): (r: Option<string>)
    ensures r == Some(NameRequired) <==> Trim(fullName) == ""
    ensures r == Some(BirthDateRequired) <==> Trim(fullName) != "" && birthDate == ""
    ensures r == Some(EmailRequired) <==> Trim(fullName) != "" && birthDate != "" && Trim(email) == ""
    ensures r == Some(EmailInvalid) <==>
      Trim(fullName) != "" && birthDate != "" && Trim(email) != "" && !IsValidEmailFormat(email)
    ensures r == Some(PasswordTooShort) <==>
      Trim(fullName) != "" && birthDate != "" && Trim(email) != "" && IsValidEmailFormat(email) && Utf16Length(password) < 6
    ensures r.None? <==>
      Trim(fullName) != "" && birthDate != "" && Trim(email) != "" && IsValidEmailFormat(email) && Utf16Length(password) >= 6
  {
    if Trim(fullName) == "" then Some(NameRequired)
    else if birthDate == "" then Some(BirthDateRequired)
    else if Trim(email) == "" then Some(EmailRequired)
    else if !IsValidEmailFormat(email) then Some(EmailInvalid)
    else if Utf16Length(password) < 6 then Some(PasswordTooShort)
    else None
  }

  /** The password rule counts UTF-16 code units, as `length` does: three
      astral characters, such as three emoji, make a long enough password. */
  lemma AstralPasswordLongEnough(fullName: string, birthDate: string, email: string, password: string)
    requires Trim(fullName) != "" && birthDate != "" && Trim(email) != "" && IsValidEmailFormat(email)
    requires |password| >= 3 && forall i :: 0 <= i < |password| ==> Astral(password[i])
    ensures FirstSignupError(fullName, birthDate, email, password).None?
  {
    Utf16LengthAllAstral(password);
  }

  /** A name made only of blanks is refused, whatever else the form holds. */
  lemma BlankNameRefused(fullName: string, birthDate: string, email: string, password: string)
    requires AllSpace(fullName)
    ensures FirstSignupError(fullName, birthDate, email, password) == Some(NameRequired)
  {
    TrimEmptyIff(fullName);
  }

  /** An address the check accepts is never blank, so the "enter an e-mail"
      check can only fire on addresses the format check would refuse too. */
  lemma ValidEmailNotBlank(email: string)
    requires IsValidEmailFormat(email)
    ensures Trim(email) != ""
  {
    var at := IndexOfAt(email);
    assert email[..at][0] == email[0];
    assert !IsSpace(email[0]);
    TrimEmptyIff(email);
  }

  /** The reply of the sign-up call. */
  datatype SignUpReply = SignUpError(message: Option<string>) | PendingConfirmation | SignedUp(uid: UserId)

  /** The message for a failed sign-up call. */
  function SignUpErrorMessage(message: Option<string>): (m: string)
    ensures m == AlreadyRegistered <==> message.Some? && Includes(ToLower(message.value), "already registered")
    ensures m == AlreadyRegistered || m == SignUpFailed
  {
    if Truthy(message) && Includes(ToLower(message.value), "already registered") then AlreadyRegistered
    else SignUpFailed
  }

  /** The profile row sign-up writes: the name as typed, untrimmed, and the
      role of a customer. It carries no e-mail. */
  function SignupProfile(uid: UserId, fullName: string, birthDate: string, phone: string, optIn: bool): (p: Profile)
    ensures p.id == uid && p.role == Some("customer")
    ensures p.fullName == Some(fullName) && p.birthDate == Some(birthDate)
    ensures p.phone == Some(phone) && p.marketingOptIn == Some(optIn) && p.email.None?
  {
    Profile(uid, Some(fullName), None, Some(phone), Some(birthDate), Some("customer"), Some(optIn))
  }

  /** The card sign-up creates: only the `points` column, set to 0. */
  const PointsOnly := Columns(None, None, None, Some(0))

  /** A customer who passed the form's checks has a complete profile. */
  lemma SignupProfileComplete(uid: UserId, fullName: string, birthDate: string, phone: string, optIn: bool)
    requires Trim(fullName) != "" && birthDate != ""
    ensures Complete(SignupProfile(uid, fullName, birthDate, phone, optIn))
    ensures RouteAfterLogin(Ok(Some(SignupProfile(uid, fullName, birthDate, phone, optIn)))) == Navigate(ClientArea)
  {
  }

  /** The two writes of a successful sign-up: upsert the customer profile,
      then insert the points card, whose failure (a card already there
      included) is ignored. */
  function SignupWrites(db: Db, uid: UserId, fullName: string, birthDate: string, phone: string,
                        optIn: bool, cardFault: Option<string>): (r: Db)
    ensures WellFormed(db) ==> WellFormed(r)
    ensures r.events == db.events && r.promotions == db.promotions
    ensures uid in r.profiles
    ensures uid in db.profiles ==>
      r.profiles[uid] == SignupProfile(uid, fullName, birthDate, phone, optIn).(email := db.profiles[uid].email)
    ensures uid !in db.profiles ==> r.profiles[uid] == SignupProfile(uid, fullName, birthDate, phone, optIn)
    ensures uid in db.cards || cardFault.Some? ==> r.cards == db.cards
    ensures uid !in db.cards && cardFault.None? ==> uid in r.cards && r.cards[uid].cols == PointsOnly
    // no other user's profile or card is touched
    ensures r.profiles == db.profiles[uid := r.profiles[uid]]
    ensures uid in r.cards ==> r.cards == db.cards[uid := r.cards[uid]]
  {
    var record := SignupProfile(uid, fullName, birthDate, phone, optIn);
    var saved := UpsertProfile(db, record, false).0;
    var r := InsertCard(saved, uid, PointsOnly, cardFault).0;
    r
  }

  /** After a sign-up whose form passed the checks, the profile read routes
      the new customer to the client area, whatever the card insert did and
      whatever e-mail the row already had. */
  lemma SignupRoutesToClient(db: Db, uid: UserId, fullName: string, birthDate: string, phone: string,
                             optIn: bool, cardFault: Option<string>)
    requires Trim(fullName) != "" && birthDate != ""
    ensures var r := SignupWrites(db, uid, fullName, birthDate, phone, optIn, cardFault);
      RouteAfterLogin(Ok(SelectProfile(r, uid))) == Navigate(ClientArea)
  {
    var r := SignupWrites(db, uid, fullName, birthDate, phone, optIn, cardFault);
    var record := SignupProfile(uid, fullName, birthDate, phone, optIn);
    SignupProfileComplete(uid, fullName, birthDate, phone, optIn);
    assert r.profiles[uid] == record.(email := r.profiles[uid].email);
  }

  /** The sign-up form's state. */
  class LoginPage {
    var fullName: string
    var birthDate: string
    var phone: string
    var regEmail: string
    var regPassword: string
    var marketingOptIn: bool
    var loading: bool
    var error: string
    var resetMessage: string

    constructor ()
      ensures fullName == "" && birthDate == "" && phone == "" && regEmail == "" && regPassword == ""
      ensures !marketingOptIn && !loading && error == "" && resetMessage == ""
    {
      fullName, birthDate, phone, regEmail, regPassword := "", "", "", "", "";
      marketingOptIn, loading, error, resetMessage := false, false, "", "";
    }

    /** `ensureProfileAndRedirect`: read the profile and decide. */
    method EnsureProfileAndRedirect(db: Db, uid: UserId, readFault: bool) returns (route: Option<Route>)
      modifies this`error
      ensures var r := RouteAfterLogin(if readFault then Err(Failed("select")) else Ok(SelectProfile(db, uid)));
        && route == (if r.Navigate? then Some(r.route) else None)
        && error == (if r.ShowError? then r.message else old(error))
    {
      var reply: Reply<Option<Profile>> := if readFault then Err(Failed("select")) else Ok(SelectProfile(db, uid));
      var decision := RouteAfterLogin(reply);
      if decision.ShowError? {
        error := decision.message;
        return None;
      }
      return Some(decision.route);
    }

    /** The part of `handleSignup` after the account exists: save the
        customer profile, create the points card (a failure is only logged)
        and route. */
    method CreateAccount(db: Db, uid: UserId, upsertFault: bool, cardFault: Option<string>, readFault: bool)
      returns (db': Db, route: Option<Route>)
      requires WellFormed(db)
      requires Trim(fullName) != "" && birthDate != ""
      modifies this`error
      ensures WellFormed(db')
      ensures db'.events == db.events && db'.promotions == db.promotions
      ensures upsertFault ==> error == ProfileSaveError && db' == db && route.None?
      ensures !upsertFault ==>
        && db' == SignupWrites(db, uid, fullName, birthDate, phone, marketingOptIn, cardFault)
        && (!readFault ==> route == Some(ClientArea) && error == old(error))
        && (readFault ==> route.None? && error == ProfileReadError)
    {
      var record := SignupProfile(uid, fullName, birthDate, phone, marketingOptIn);
      var (saved, upserted) := UpsertProfile(db, record, upsertFault);
      db', route := db, None;
      if !upserted {
        error := ProfileSaveError;
        return;
      }
      // a failed card insert is only logged
      var (withCard, _) := InsertCard(saved, uid, PointsOnly, cardFault);
      db' := withCard;
      assert saved == UpsertProfile(db, record, false).0;
      assert db' == InsertCard(UpsertProfile(db, record, false).0, uid, PointsOnly, cardFault).0;
      SignupRoutesToClient(db, uid, fullName, birthDate, phone, marketingOptIn, cardFault);
      route := EnsureProfileAndRedirect(db', uid, readFault);
    }

    /** `handleSignup` after the form passed its checks: the sign-up call's
        reply decides what follows. */
    method Submit(db: Db, auth: SignUpReply, upsertFault: bool, cardFault: Option<string>, readFault: bool)
      returns (db': Db, route: Option<Route>)
      requires WellFormed(db)
      requires Trim(fullName) != "" && birthDate != ""
      modifies this`error, this`loading
      ensures WellFormed(db') && !loading
      ensures db'.events == db.events && db'.promotions == db.promotions
      ensures auth.SignUpError? ==> error == SignUpErrorMessage(auth.message) && db' == db && route.None?
      ensures auth.PendingConfirmation? ==> error == ConfirmEmail && db' == db && route.None?
      ensures auth.SignedUp? && upsertFault ==> error == ProfileSaveError && db' == db && route.None?
      ensures auth.SignedUp? && !upsertFault ==>
        && db' == SignupWrites(db, auth.uid, fullName, birthDate, phone, marketingOptIn, cardFault)
        && (!readFault ==> route == Some(ClientArea) && error == old(error))
        && (readFault ==> route.None? && error == ProfileReadError)
    {
      db', route := db, None;
      loading := true;
      loading := false;

      match auth {
        case SignUpError(message) =>
          error := SignUpErrorMessage(message);
        case PendingConfirmation =>
          error := ConfirmEmail;
        case SignedUp(uid) =>
          db', route := CreateAccount(db, uid, upsertFault, cardFault, readFault);
      }
    }

    /** `handleSignup`. The reply of the sign-up call and the store's faults
        are inputs; `signUpCalled` says whether the call was made at all. */
    method HandleSignup(db: Db, auth: SignUpReply, upsertFault: bool, cardFault: Option<string>, readFault: bool)
      returns (db': Db, signUpCalled: bool, route: Option<Route>)
      requires WellFormed(db)
      modifies this`error, this`resetMessage, this`loading
      ensures WellFormed(db')
      ensures resetMessage == ""
      ensures loading == (if signUpCalled then false else old(loading))
      ensures db'.events == db.events && db'.promotions == db.promotions
      // the validation chain: a failure sets its message and nothing is sent
      ensures var invalid := FirstSignupError(fullName, birthDate, regEmail, regPassword);
        invalid.Some? ==> !signUpCalled && error == invalid.value && db' == db && route.None?
      ensures signUpCalled <==> FirstSignupError(fullName, birthDate, regEmail, regPassword).None?
      ensures signUpCalled && auth.SignUpError? ==>
        error == SignUpErrorMessage(auth.message) && db' == db && route.None?
      ensures signUpCalled && auth.PendingConfirmation? ==> error == ConfirmEmail && db' == db && route.None?
      ensures signUpCalled && auth.SignedUp? && upsertFault ==> error == ProfileSaveError && db' == db && route.None?
      // a new account gets the customer profile, then a points card unless
      // one exists or the insert fails, and is sent to the client area
      ensures signUpCalled && auth.SignedUp? && !upsertFault ==>
        && db' == SignupWrites(db, auth.uid, fullName, birthDate, phone, marketingOptIn, cardFault)
        && (!readFault ==> route == Some(ClientArea) && error == "")
        && (readFault ==> route.None? && error == ProfileReadError)
    {
      error, resetMessage := "", "";
      db', signUpCalled, route := db, false, None;

      var invalid := FirstSignupError(fullName, birthDate, regEmail, regPassword);
      if invalid.Some? {
        error := invalid.value;
        return;
      }
      signUpCalled := true;
      db', route := Submit(db, auth, upsertFault, cardFault, readFault);
    }
  }
}
