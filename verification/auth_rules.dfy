/**
 * The decisions the server actions make around the auth service: sign-up
 * validation and provisioning, the sign-in approval gate, and the two halves
 * of the password reset. Every database or auth call is an input saying what
 * that call answered; each action returns the redirect it ends with and
 * records which writes it made.
 */
module AuthRules {
  import opened Wrappers
  import opened Text
  import Provisioner

  datatype NoticeKind = Error | Success | Warning

  /** A plain redirect, or one carrying a notice in its query string. */
  datatype Response =
    | Redirect(path: string)
    | Notice(kind: NoticeKind, path: string, message: string)

  /**
   * What a `try` block throws. `redirect`, and `encodedRedirect` which calls
   * it, never return: they throw a signal that the framework turns into the
   * response, unless an enclosing `catch` receives it first. The other things
   * thrown are a database error the code rethrows, with its code, and an
   * exception from the client library, which has no code.
   */
  datatype Signal =
    | RedirectSignal(to: Response)
    | QueryFailure(code: string)
    | ClientException

  /** How a `try` block ends: it runs to its end, or it throws. */
  datatype Completion = Completed | Thrown(signal: Signal)

  // ---------------------------------------------------------------------------
  // The e-mail shape `^[^\s@]+@[^\s@]+\.[^\s@]+$`

  /** The characters JavaScript's `\s` matches. */
  predicate IsSpace(c: char) {
    c == ' ' || c == '\t' || c == '\n' || c == '\r' || c == '\U{000B}' || c == '\U{000C}' ||
    c == '\U{00A0}' || c == '\U{1680}' || ('\U{2000}' <= c <= '\U{200A}') ||
    c == '\U{2028}' || c == '\U{2029}' || c == '\U{202F}' || c == '\U{205F}' ||
    c == '\U{3000}' || c == '\U{FEFF}'
  }

  /** `[^\s@]`. */
  predicate Atom(c: char) {
    !IsSpace(c) && c != '@'
  }

  /**
   * What the pattern says, position by position: an '@' at `i` and a '.' at
   * `j` split the text into three non-empty runs, and every other character
   * is neither whitespace nor '@'.
   */
  predicate EmailPattern(s: string) {
    exists i, j :: 0 < i && i + 1 < j && j + 1 < |s| && AtDotSplit(s, i, j)
  }

  predicate AtDotSplit(s: string, i: int, j: int)
    requires 0 <= i < j < |s|
  {
    s[i] == '@' && s[j] == '.' &&
    (forall k :: 0 <= k < |s| && k != i ==> Atom(s[k]))
  }

  /** The first position of `c` in `s`, or `|s|` when there is none. */
  function IndexOf(s: string, c: char): (i: nat)
    ensures i <= |s|
    ensures i < |s| ==> s[i] == c
    ensures forall k :: 0 <= k < i ==> s[k] != c
  {
    if s == [] then 0
    else if s[0] == c then 0
    else 1 + IndexOf(s[1..], c)
  }

  /**
   * The test as a scan: no whitespace, exactly one '@' after at least one
   * character, and a '.' after the '@' with characters on both sides of it.
   */
  predicate EmailShaped(s: string): (ok: bool)
    ensures ok ==> |s| >= 5 && s[0] != '@' && s[|s| - 1] != '@'
  {
    var at := IndexOf(s, '@');
    (forall k :: 0 <= k < |s| ==> !IsSpace(s[k])) &&
    0 < at && at + 3 <= |s| && '@' !in s[at + 1..] && '.' in s[at + 2..|s| - 1]
  }

  /** The scan accepts exactly the strings the pattern matches. */
  lemma EmailShapedIsPattern(s: string)
    ensures EmailShaped(s) <==> EmailPattern(s)
  {
    var at := IndexOf(s, '@');
    if EmailShaped(s) {
      var m :| 0 <= m < |s[at + 2..|s| - 1]| && s[at + 2..|s| - 1][m] == '.';
      var j := at + 2 + m;
      assert s[j] == '.';
      forall k | 0 <= k < |s| && k != at ensures Atom(s[k]) {
        if k > at {
          assert s[at + 1..][k - at - 1] == s[k];
        }
      }
      assert AtDotSplit(s, at, j);
    }
    if EmailPattern(s) {
      var i, j :| 0 < i && i + 1 < j && j + 1 < |s| && AtDotSplit(s, i, j);
      assert at <= i < |s|;
      assert s[at] == '@';
      assert at == i;
      assert '@' !in s[at + 1..] by {
        forall m | at + 1 <= m < |s| ensures s[m] != '@' {
          assert Atom(s[m]);
        }
      }
      assert s[at + 2..|s| - 1][j - at - 2] == '.';
    }
  }

  // ---------------------------------------------------------------------------
  // Sign-up

  /** The form's fields; `None` for a field the form did not send. */
  datatype SignUpForm = SignUpForm(
    email: Option<string>,
    password: Option<string>,
    fullName: Option<string>,
    role: Option<string>)

  /** The users-table lookup by e-mail: an error and an exception are only logged. */
  datatype EmailLookup = LookupFailed | LookupThrew | EmailFree | EmailTaken

  /** The auth service's sign-up answer: an error, no user, or a user with this id. */
  datatype AuthSignUp =
    | AuthFailed(message: string)
    | NoUserReturned
    | UserCreated(userId: string)

  /** The fields handed to the profile writer. */
  datatype ProfileRequest = ProfileRequest(userId: string, fullName: string, email: string, role: string, approved: bool)

  /** The redirect, and which of the auth calls and writes were made. */
  datatype SignUpOutcome = SignUpOutcome(
    response: Response,
    authCalled: bool,
    profile: Option<ProfileRequest>,
    identityDeleted: bool)

  const MsgFieldsRequired := "Email and password are required"
  const MsgInvalidEmail := "Please enter a valid email address"
  const MsgEmailTaken := "This email is already registered. Please use a different email or sign in."
  const MsgNoUserId := "Error creating user account. Please try again."
  const MsgProfileFailed := "Error creating user profile. Please try again later."

  /** `role || "player"`. */
  function RoleOrDefault(role: Option<string>): (r: string)
    ensures Filled(role) ==> r == role.value
    ensures !Filled(role) ==> r == "player"
  {
    if Filled(role) then role.value else "player"
  }

  /** Players are approved at once; every other role waits for an administrator. */
  function AutoApproved(role: string): bool {
    role == "player"
  }

  /** The `try` block around the e-mail lookup: a taken address throws the redirect. */
  function SignUpLookupBlock(lookup: EmailLookup): (c: Completion)
    ensures c.Completed? <==> lookup == EmailFree || lookup == LookupFailed
    ensures c.Thrown? && c.signal.RedirectSignal? <==> lookup == EmailTaken
  {
    match lookup
    case LookupFailed => Completed
    case LookupThrew => Thrown(ClientException)
    case EmailFree => Completed
    case EmailTaken => Thrown(RedirectSignal(Notice(Error, "/sign-up", MsgEmailTaken)))
  }

  /** What follows the lookup: the auth sign-up, then the profile, then clean-up on failure. */
  function SignUpAfterLookup(form: SignUpForm, auth: AuthSignUp,
                             profileOracle: nat -> Provisioner.Attempt): (o: SignUpOutcome)
    requires Filled(form.email)
    ensures o.authCalled
    ensures o.identityDeleted <==> o.profile.Some? && o.response == Notice(Error, "/sign-up", MsgProfileFailed)
  {
    match auth
    case AuthFailed(message) => SignUpOutcome(Notice(Error, "/sign-up", message), true, None, false)
    case NoUserReturned => SignUpOutcome(Notice(Error, "/sign-up", MsgNoUserId), true, None, false)
    case UserCreated(id) =>
      if id == "" then SignUpOutcome(Notice(Error, "/sign-up", MsgNoUserId), true, None, false)
      else
        var role := RoleOrDefault(form.role);
        var fullName := if Filled(form.fullName) then form.fullName.value else "";
        var request := ProfileRequest(id, fullName, form.email.value, role, AutoApproved(role));
        if Provisioner.Provision(profileOracle).success then
          SignUpOutcome(Redirect("/profiles"), true, Some(request), false)
        else
          SignUpOutcome(Notice(Error, "/sign-up", MsgProfileFailed), true, Some(request), true)
  }

  /**
   * `signUpAction` as written, with the profile writer's rounds given by
   * `profileOracle`. The `catch` around the lookup receives whatever its
   * block throws, the redirect for a taken address included, logs it and
   * goes on to create the identity.
   */
  function SignUpAsWritten(form: SignUpForm, lookup: EmailLookup, auth: AuthSignUp,
                           profileOracle: nat -> Provisioner.Attempt): (o: SignUpOutcome)
    ensures o.profile.Some? ==> o.authCalled
    ensures o.identityDeleted ==> o.profile.Some? && o.response == Notice(Error, "/sign-up", MsgProfileFailed)
  {
    if !Filled(form.email) || !Filled(form.password) then
      SignUpOutcome(Notice(Error, "/sign-up", MsgFieldsRequired), false, None, false)
    else if !EmailShaped(form.email.value) then
      SignUpOutcome(Notice(Error, "/sign-up", MsgInvalidEmail), false, None, false)
    else
      match SignUpLookupBlock(lookup)
      case Completed => SignUpAfterLookup(form, auth, profileOracle)
      case Thrown(_) => SignUpAfterLookup(form, auth, profileOracle)
  }

  /**
   * `signUpAction` as its authors meant it: the redirect for a taken address
   * ends the action, and only a failed or throwing lookup is passed over.
   */
  function SignUp(form: SignUpForm, lookup: EmailLookup, auth: AuthSignUp,
                  profileOracle: nat -> Provisioner.Attempt): (o: SignUpOutcome)
    ensures o.profile.Some? ==> o.authCalled
    ensures o.identityDeleted ==> o.profile.Some? && o.response == Notice(Error, "/sign-up", MsgProfileFailed)
  {
    if !Filled(form.email) || !Filled(form.password) then
      SignUpOutcome(Notice(Error, "/sign-up", MsgFieldsRequired), false, None, false)
    else if !EmailShaped(form.email.value) then
      SignUpOutcome(Notice(Error, "/sign-up", MsgInvalidEmail), false, None, false)
    else
      match SignUpLookupBlock(lookup)
      case Thrown(RedirectSignal(r)) => SignUpOutcome(r, false, None, false)
      case _ => SignUpAfterLookup(form, auth, profileOracle)
  }

  /**
   * The checks run in order before any identity is created: missing fields
   * first, then the e-mail shape, then (in the intended flow) an e-mail
   * already in the users table.
   */
  lemma SignUpValidationOrder(form: SignUpForm, lookup: EmailLookup, auth: AuthSignUp,
                              profileOracle: nat -> Provisioner.Attempt)
    ensures var o := SignUp(form, lookup, auth, profileOracle);
            && (!Filled(form.email) || !Filled(form.password) ==>
                  o.response == Notice(Error, "/sign-up", MsgFieldsRequired))
            && (Filled(form.email) && Filled(form.password) && !EmailShaped(form.email.value) ==>
                  o.response == Notice(Error, "/sign-up", MsgInvalidEmail))
            && ((Filled(form.email) && Filled(form.password) && EmailShaped(form.email.value) &&
                 lookup == EmailTaken) ==>
                  o.response == Notice(Error, "/sign-up", MsgEmailTaken))
            && (!o.authCalled <==>
                  !Filled(form.email) || !Filled(form.password) || !EmailShaped(form.email.value) ||
                  lookup == EmailTaken)
            && (!o.authCalled ==> o.profile.None? && !o.identityDeleted)
    ensures var w := SignUpAsWritten(form, lookup, auth, profileOracle);
            !w.authCalled <==> !Filled(form.email) || !Filled(form.password) || !EmailShaped(form.email.value)
  {
  }

  /**
   * Once the auth service returns a user, the profile is requested with the
   * role sent (or "player" when none was) and approved iff that role is
   * "player"; success redirects to /profiles, failure deletes the identity.
   * As written this holds whatever the lookup answered.
   */
  lemma SignUpProvisioning(form: SignUpForm, lookup: EmailLookup, id: string,
                           profileOracle: nat -> Provisioner.Attempt)
    requires Filled(form.email) && Filled(form.password) && EmailShaped(form.email.value)
    requires id != ""
    ensures var o := SignUpAsWritten(form, lookup, UserCreated(id), profileOracle);
            && o.profile.Some?
            && o.profile.value.userId == id
            && o.profile.value.role == RoleOrDefault(form.role)
            && (o.profile.value.approved <==> o.profile.value.role == "player")
            && (Provisioner.Provision(profileOracle).success ==>
                  o.response == Redirect("/profiles") && !o.identityDeleted)
            && (!Provisioner.Provision(profileOracle).success ==>
                  o.response == Notice(Error, "/sign-up", MsgProfileFailed) && o.identityDeleted)
    ensures lookup != EmailTaken ==>
              SignUp(form, lookup, UserCreated(id), profileOracle) ==
              SignUpAsWritten(form, lookup, UserCreated(id), profileOracle)
  {
  }

  /** A failed lookup of the e-mail does not stop the sign-up, as written or as meant. */
  lemma LookupFailureIsIgnored(form: SignUpForm, auth: AuthSignUp, profileOracle: nat -> Provisioner.Attempt)
    ensures SignUp(form, LookupFailed, auth, profileOracle) == SignUp(form, EmailFree, auth, profileOracle)
    ensures SignUp(form, LookupThrew, auth, profileOracle) == SignUp(form, EmailFree, auth, profileOracle)
    ensures SignUpAsWritten(form, LookupFailed, auth, profileOracle) == SignUp(form, EmailFree, auth, profileOracle)
    ensures SignUpAsWritten(form, LookupThrew, auth, profileOracle) == SignUp(form, EmailFree, auth, profileOracle)
  {
  }

  /**
   * As written, an address already in the users table does not stop the
   * sign-up: the action behaves as for a free address and calls the auth
   * service, where the intended flow stops with the "already registered" notice.
   */
  lemma TakenAddressStillSignsUp(form: SignUpForm, auth: AuthSignUp, profileOracle: nat -> Provisioner.Attempt)
    requires Filled(form.email) && Filled(form.password) && EmailShaped(form.email.value)
    ensures SignUpAsWritten(form, EmailTaken, auth, profileOracle) == SignUpAsWritten(form, EmailFree, auth, profileOracle)
    ensures SignUpAsWritten(form, EmailTaken, auth, profileOracle).authCalled
    ensures SignUp(form, EmailTaken, auth, profileOracle) ==
            SignUpOutcome(Notice(Error, "/sign-up", MsgEmailTaken), false, None, false)
  {
  }

  // ---------------------------------------------------------------------------
  // Sign-in

  datatype SignInAuth =
    | SignInFailed(message: string)
    | NoSessionUser
    | SignedIn(userId: string)

  /** The `.single()` read of the user's role and approval: a row, or an error with its code. */
  datatype ProfileLookup =
    | ProfileRow(role: Option<string>, approved: Option<bool>)
    | ProfileQueryError(code: string)

  const MsgNoSessionUser := "No user found in session"
  const MsgPendingApproval := "Your account is pending approval from an administrator. You'll be notified when your account is approved."
  const MsgProfileUnavailable := "Failed to retrieve user profile information"

  /** `["coach", "admin"].includes(role) && !approved`; a missing approval counts as not approved. */
  predicate AwaitingApproval(role: Option<string>, approved: Option<bool>) {
    (role == Some("coach") || role == Some("admin")) && approved != Some(true)
  }

  /** The `try` block of the profile read: the rethrown query error, or the pending-approval redirect. */
  function SignInProfileBlock(lookup: ProfileLookup): (c: Completion)
    ensures c.Completed? <==> lookup.ProfileRow? && !AwaitingApproval(lookup.role, lookup.approved)
    ensures c.Thrown? && c.signal.RedirectSignal? <==> lookup.ProfileRow? && AwaitingApproval(lookup.role, lookup.approved)
  {
    match lookup
    case ProfileQueryError(code) => Thrown(QueryFailure(code))
    case ProfileRow(role, approved) =>
      if AwaitingApproval(role, approved) then Thrown(RedirectSignal(Notice(Warning, "/sign-in", MsgPendingApproval)))
      else Completed
  }

  /** The `catch` of the profile read: only the code PGRST116 (no row) leads to profile creation. */
  function SignInCatch(signal: Signal): (r: Response)
    ensures r == Redirect("/create-profile") <==> signal == QueryFailure("PGRST116")
    ensures r != Redirect("/create-profile") ==> r == Notice(Error, "/sign-in", MsgProfileUnavailable)
  {
    if signal.QueryFailure? && signal.code == "PGRST116" then Redirect("/create-profile")
    else Notice(Error, "/sign-in", MsgProfileUnavailable)
  }

  /**
   * `signInAction` as written: the pending-approval redirect is thrown inside
   * the `try`, so the `catch` receives it like any other failure.
   */
  function SignInAsWritten(auth: SignInAuth, lookup: ProfileLookup): (r: Response)
    ensures r.Redirect? ==> r.path == "/create-profile" || r.path == "/profiles"
    ensures r.Notice? ==> r.path == "/sign-in" && r.kind == Error
  {
    match auth
    case SignInFailed(message) => Notice(Error, "/sign-in", message)
    case NoSessionUser => Notice(Error, "/sign-in", MsgNoSessionUser)
    case SignedIn(_) =>
      match SignInProfileBlock(lookup)
      case Completed => Redirect("/profiles")
      case Thrown(signal) => SignInCatch(signal)
  }

  /** `signInAction` as its authors meant it: the pending-approval redirect ends the action. */
  function SignIn(auth: SignInAuth, lookup: ProfileLookup): (r: Response)
    ensures r.Redirect? ==> r.path == "/create-profile" || r.path == "/profiles"
    ensures r.Notice? ==> r.path == "/sign-in"
  {
    match auth
    case SignInFailed(message) => Notice(Error, "/sign-in", message)
    case NoSessionUser => Notice(Error, "/sign-in", MsgNoSessionUser)
    case SignedIn(_) =>
      match SignInProfileBlock(lookup)
      case Completed => Redirect("/profiles")
      case Thrown(RedirectSignal(r)) => r
      case Thrown(signal) => SignInCatch(signal)
  }

  /**
   * In the intended flow, a signed-in user with a row gets the pending-approval
   * warning iff the role is coach or admin and the row is not approved, and
   * /profiles otherwise.
   */
  lemma SignInApprovalGate(userId: string, role: Option<string>, approved: Option<bool>)
    ensures var r := SignIn(SignedIn(userId), ProfileRow(role, approved));
            && (r == Notice(Warning, "/sign-in", MsgPendingApproval) <==>
                  (role == Some("coach") || role == Some("admin")) && approved != Some(true))
            && (r != Notice(Warning, "/sign-in", MsgPendingApproval) ==> r == Redirect("/profiles"))
  {
  }

  /**
   * As written, a coach or admin awaiting approval is told that the profile
   * could not be retrieved; the pending-approval warning is never shown.
   * Every other sign-in ends as intended.
   */
  lemma PendingApprovalReportedAsLookupFailure(auth: SignInAuth, lookup: ProfileLookup)
    ensures auth.SignedIn? && lookup.ProfileRow? && AwaitingApproval(lookup.role, lookup.approved) ==>
              SignInAsWritten(auth, lookup) == Notice(Error, "/sign-in", MsgProfileUnavailable) &&
              SignIn(auth, lookup) == Notice(Warning, "/sign-in", MsgPendingApproval)
    ensures !(auth.SignedIn? && lookup.ProfileRow? && AwaitingApproval(lookup.role, lookup.approved)) ==>
              SignInAsWritten(auth, lookup) == SignIn(auth, lookup)
    ensures SignInAsWritten(auth, lookup) != Notice(Warning, "/sign-in", MsgPendingApproval)
  {
  }

  /** A missing row (code PGRST116) sends the user to create a profile; other errors are reported. */
  lemma SignInMissingProfile(userId: string, code: string)
    ensures SignInAsWritten(SignedIn(userId), ProfileQueryError(code)) == Redirect("/create-profile") <==> code == "PGRST116"
    ensures SignIn(SignedIn(userId), ProfileQueryError(code)) == SignInAsWritten(SignedIn(userId), ProfileQueryError(code))
  {
  }

  /** Players are never held for approval. */
  lemma PlayersNeverWait(userId: string, approved: Option<bool>)
    ensures SignInAsWritten(SignedIn(userId), ProfileRow(Some("player"), approved)) == Redirect("/profiles")
    ensures SignIn(SignedIn(userId), ProfileRow(Some("player"), approved)) == Redirect("/profiles")
  {
  }

  // ---------------------------------------------------------------------------
  // Forgot password

  const HourMs := 3600 * 1000
  const ResetTokenLifetimeMs := 24 * HourMs

  /** A row of the reset-token table. */
  datatype ResetToken = ResetToken(email: string, token: string, expiresAt: int, createdAt: int)

  /**
   * The request's answer, the token row written if one was, and whether the
   * reset e-mail was requested from the auth service (whatever it answered).
   */
  datatype ForgotOutcome = ForgotOutcome(response: Response, stored: Option<ResetToken>, resetEmailRequested: bool)

  const MsgEmailRequired := "Email is required"
  const MsgResetLinkMaybeSent := "If your email is registered, you will receive a password reset link."
  const MsgRequestFailed := "Could not process your request. Please try again."
  const MsgResetFailed := "Could not reset password"

  /**
   * `forgotPasswordAction` at time `now` (ms), with the new token text given;
   * `registered` says whether the users table answered with a row.
   */
  function ForgotPassword(email: Option<string>, callbackUrl: Option<string>, registered: bool,
                          token: string, now: int, tokenWriteFails: bool, resetEmailFails: bool): (o: ForgotOutcome)
    ensures o.resetEmailRequested <==> o.stored.Some?
    ensures o.response.Redirect? ==> o.resetEmailRequested
    ensures !Filled(email) ==> o.stored.None?
  {
    if !Filled(email) then ForgotOutcome(Notice(Error, "/forgot-password", MsgEmailRequired), None, false)
    else if !registered then ForgotOutcome(Notice(Success, "/forgot-password", MsgResetLinkMaybeSent), None, false)
    else if tokenWriteFails then ForgotOutcome(Notice(Error, "/forgot-password", MsgRequestFailed), None, false)
    else
      var row := ResetToken(email.value, token, now + ResetTokenLifetimeMs, now);
      if resetEmailFails then ForgotOutcome(Notice(Error, "/forgot-password", MsgResetFailed), Some(row), true)
      else if Filled(callbackUrl) then ForgotOutcome(Redirect(callbackUrl.value), Some(row), true)
      else ForgotOutcome(Redirect("/forgot-password/reset-confirmation"), Some(row), true)
  }

  /**
   * A stored token belongs to the requested address and expires 24 hours
   * after it was made; an unregistered address gets the neutral notice and
   * nothing is stored.
   */
  lemma ForgotPasswordToken(email: Option<string>, callbackUrl: Option<string>, registered: bool,
                            token: string, now: int, tokenWriteFails: bool, resetEmailFails: bool)
    ensures var o := ForgotPassword(email, callbackUrl, registered, token, now, tokenWriteFails, resetEmailFails);
            && (o.stored.Some? <==> Filled(email) && registered && !tokenWriteFails)
            && (o.stored.Some? ==> o.stored.value.email == email.value && o.stored.value.token == token &&
                                   o.stored.value.expiresAt - o.stored.value.createdAt == 86400000 &&
                                   o.stored.value.createdAt == now)
            && (Filled(email) && !registered ==>
                  o.response == Notice(Success, "/forgot-password", MsgResetLinkMaybeSent))
            && (Filled(email) && registered && !tokenWriteFails && !resetEmailFails ==>
                  o.response == Redirect(if Filled(callbackUrl) then callbackUrl.value
                                         else "/forgot-password/reset-confirmation"))
  {
  }

  // ---------------------------------------------------------------------------
  // Reset password

  /** The token lookup by its text: an error, no row, a row with its expiry, or an exception. */
  datatype TokenLookup =
    | TokenQueryError
    | TokenMissing
    | TokenFound(expiresAt: int)
    | TokenLookupThrew

  datatype ResetOutcome = ResetOutcome(response: Response, tokenDeleted: bool, updateAttempted: bool)

  /** How the token's `try` block ends, and whether it deleted the token. */
  datatype TokenCheck = TokenCheck(completion: Completion, deleted: bool)

  const MsgPasswordsRequired := "Password and confirm password are required"
  const MsgPasswordsDiffer := "Passwords do not match"
  const MsgInvalidLink := "Invalid or expired password reset link. Please request a new one."
  const MsgExpiredLink := "Your password reset link has expired. Please request a new one."
  const MsgNotAllowed := "You must be logged in or have a valid reset token to change your password"
  const MsgPasswordUpdated := "Password updated successfully. You can now sign in with your new password."

  /** A found token is expired when its expiry lies strictly before now. */
  predicate Expired(expiresAt: int, now: int) {
    expiresAt < now
  }

  /**
   * The token's `try` block at time `now`: an unknown or expired token throws
   * its redirect, a live one is deleted, and a throwing lookup throws.
   */
  function ResetTokenBlock(lookup: TokenLookup, now: int): (b: TokenCheck)
    ensures b.deleted <==> b.completion.Completed?
    ensures b.deleted <==> lookup.TokenFound? && !Expired(lookup.expiresAt, now)
    ensures b.completion.Thrown? && b.completion.signal.RedirectSignal? <==>
            !lookup.TokenLookupThrew? && !b.deleted
  {
    match lookup
    case TokenQueryError => TokenCheck(Thrown(RedirectSignal(Notice(Error, "/forgot-password", MsgInvalidLink))), false)
    case TokenMissing => TokenCheck(Thrown(RedirectSignal(Notice(Error, "/forgot-password", MsgInvalidLink))), false)
    case TokenFound(expiresAt) =>
      if Expired(expiresAt, now) then
        TokenCheck(Thrown(RedirectSignal(Notice(Error, "/forgot-password", MsgExpiredLink))), false)
      else TokenCheck(Completed, true)
    case TokenLookupThrew => TokenCheck(Thrown(ClientException), false)
  }

  /** What follows the token check: the session check, then the password update. */
  function ResetAfterToken(token: Option<string>, hasSession: bool, updateError: Option<string>,
                           deleted: bool): (o: ResetOutcome)
    ensures o.tokenDeleted == deleted
    ensures o.updateAttempted <==> hasSession || Filled(token)
    ensures o.response.Notice? && (o.response.kind == Success <==> o.updateAttempted && updateError.None?)
  {
    if !hasSession && !Filled(token) then
      ResetOutcome(Notice(Error, "/dashboard/reset-password", MsgNotAllowed), deleted, false)
    else if updateError.Some? then
      ResetOutcome(Notice(Error, "/dashboard/reset-password", "Password update failed: " + updateError.value), deleted, true)
    else
      ResetOutcome(Notice(Success, "/sign-in", MsgPasswordUpdated), deleted, true)
  }

  /**
   * `resetPasswordAction` as written, at time `now`; `hasSession` says whether
   * a user is signed in, `updateError` what the password update answered.
   * The `catch` after the token check receives the redirects for an unknown
   * or expired token too, and the action goes on to update the password.
   */
  function ResetPasswordAsWritten(password: Option<string>, confirm: Option<string>, token: Option<string>,
                                  lookup: TokenLookup, now: int, hasSession: bool,
                                  updateError: Option<string>): (o: ResetOutcome)
    ensures o.response.Notice?
    ensures o.response.kind == Success <==> o.updateAttempted && updateError.None?
  {
    if !Filled(password) || !Filled(confirm) then
      ResetOutcome(Notice(Error, "/dashboard/reset-password", MsgPasswordsRequired), false, false)
    else if password.value != confirm.value then
      ResetOutcome(Notice(Error, "/dashboard/reset-password", MsgPasswordsDiffer), false, false)
    else
      var deleted := Filled(token) && ResetTokenBlock(lookup, now).deleted;
      ResetAfterToken(token, hasSession, updateError, deleted)
  }

  /**
   * `resetPasswordAction` as its authors meant it: an unknown or expired
   * token ends the action with its notice; only a throwing lookup is passed over.
   */
  function ResetPassword(password: Option<string>, confirm: Option<string>, token: Option<string>,
                         lookup: TokenLookup, now: int, hasSession: bool,
                         updateError: Option<string>): (o: ResetOutcome)
    ensures o.response.Notice?
    ensures o.response.kind == Success <==> o.updateAttempted && updateError.None?
  {
    if !Filled(password) || !Filled(confirm) then
      ResetOutcome(Notice(Error, "/dashboard/reset-password", MsgPasswordsRequired), false, false)
    else if password.value != confirm.value then
      ResetOutcome(Notice(Error, "/dashboard/reset-password", MsgPasswordsDiffer), false, false)
    else
      var check := ResetTokenBlock(lookup, now);
      if Filled(token) && check.completion.Thrown? && check.completion.signal.RedirectSignal? then
        ResetOutcome(check.completion.signal.to, false, false)
      else
        ResetAfterToken(token, hasSession, updateError, Filled(token) && check.deleted)
  }

  /** The password is changed only when both fields are filled and equal, as written and as meant. */
  lemma ResetNeedsMatchingPasswords(password: Option<string>, confirm: Option<string>, token: Option<string>,
                                    lookup: TokenLookup, now: int, hasSession: bool, updateError: Option<string>)
    ensures var o := ResetPasswordAsWritten(password, confirm, token, lookup, now, hasSession, updateError);
            && (o.updateAttempted ==> Filled(password) && Filled(confirm) && password.value == confirm.value)
            && (!Filled(password) || !Filled(confirm) ==>
                  o.response == Notice(Error, "/dashboard/reset-password", MsgPasswordsRequired))
            && (Filled(password) && Filled(confirm) && password.value != confirm.value ==>
                  o.response == Notice(Error, "/dashboard/reset-password", MsgPasswordsDiffer))
    ensures !Filled(password) || !Filled(confirm) || password.value != confirm.value ==>
              ResetPassword(password, confirm, token, lookup, now, hasSession, updateError) ==
              ResetPasswordAsWritten(password, confirm, token, lookup, now, hasSession, updateError)
  {
  }

  /**
   * In the intended flow, with matching passwords and a token whose row was
   * found: an expired token is refused and nothing changes; a live one is
   * deleted and the update runs.
   */
  lemma ResetWithFoundToken(pw: string, tokenText: string, expiresAt: int, now: int,
                            hasSession: bool, updateError: Option<string>)
    requires pw != "" && tokenText != ""
    ensures var o := ResetPassword(Some(pw), Some(pw), Some(tokenText), TokenFound(expiresAt), now, hasSession, updateError);
            && (Expired(expiresAt, now) ==>
                  o == ResetOutcome(Notice(Error, "/forgot-password", MsgExpiredLink), false, false))
            && (!Expired(expiresAt, now) ==> o.tokenDeleted && o.updateAttempted)
  {
  }

  /**
   * As written, a token that is unknown or expired does not stop the reset:
   * it is not deleted, but the password update runs all the same, where the
   * intended flow refuses with the token's notice.
   */
  lemma RejectedTokenStillUpdates(pw: string, tokenText: string, lookup: TokenLookup, now: int,
                                  hasSession: bool, updateError: Option<string>)
    requires pw != "" && tokenText != ""
    requires lookup.TokenQueryError? || lookup.TokenMissing? || (lookup.TokenFound? && Expired(lookup.expiresAt, now))
    ensures var o := ResetPasswordAsWritten(Some(pw), Some(pw), Some(tokenText), lookup, now, hasSession, updateError);
            o.updateAttempted && !o.tokenDeleted
    ensures var o := ResetPassword(Some(pw), Some(pw), Some(tokenText), lookup, now, hasSession, updateError);
            !o.updateAttempted && !o.tokenDeleted && o.response.path == "/forgot-password"
  {
  }

  /** With no signed-in user and no token the reset is refused before any update. */
  lemma ResetWithoutSessionOrToken(password: Option<string>, confirm: Option<string>, lookup: TokenLookup,
                                   now: int, updateError: Option<string>)
    requires Filled(password) && Filled(confirm) && password.value == confirm.value
    ensures ResetPasswordAsWritten(password, confirm, None, lookup, now, false, updateError) ==
            ResetOutcome(Notice(Error, "/dashboard/reset-password", MsgNotAllowed), false, false)
    ensures ResetPassword(password, confirm, None, lookup, now, false, updateError) ==
            ResetPasswordAsWritten(password, confirm, None, lookup, now, false, updateError)
  {
  }

  /** A token is consumed only by a reset that found it unexpired and goes on to update the password. */
  lemma DeletedTokenMeansUpdate(password: Option<string>, confirm: Option<string>, token: Option<string>,
                                lookup: TokenLookup, now: int, hasSession: bool, updateError: Option<string>)
    ensures var o := ResetPasswordAsWritten(password, confirm, token, lookup, now, hasSession, updateError);
            o.tokenDeleted ==> o.updateAttempted && Filled(token) && lookup.TokenFound? &&
                               !Expired(lookup.expiresAt, now)
    ensures var o := ResetPassword(password, confirm, token, lookup, now, hasSession, updateError);
            o.tokenDeleted ==> o.updateAttempted && Filled(token) && lookup.TokenFound? &&
                               !Expired(lookup.expiresAt, now)
  {
  }

  /**
   * The two halves together, in the intended flow: a token stored by a reset
   * request made at time `t` is accepted by a reset at time `now` iff `now`
   * is at most 24 hours later.
   */
  lemma TokenLifetime(email: string, callbackUrl: Option<string>, tokenText: string, t: int, now: int,
                      pw: string, hasSession: bool, updateError: Option<string>)
    requires email != "" && tokenText != "" && pw != ""
    ensures var f := ForgotPassword(Some(email), callbackUrl, true, tokenText, t, false, false);
            && f.stored.Some?
            && var o := ResetPassword(Some(pw), Some(pw), Some(tokenText), TokenFound(f.stored.value.expiresAt),
                                      now, hasSession, updateError);
               (o.updateAttempted <==> now <= t + 86400000)
  {
  }

  /**
   * The two halves together, as written: the 24-hour lifetime decides only
   * whether the token is deleted; the password update runs either way.
   */
  lemma TokenLifetimeAsWritten(email: string, callbackUrl: Option<string>, tokenText: string, t: int, now: int,
                               pw: string, hasSession: bool, updateError: Option<string>)
    requires email != "" && tokenText != "" && pw != ""
    ensures var f := ForgotPassword(Some(email), callbackUrl, true, tokenText, t, false, false);
            && f.stored.Some?
            && var o := ResetPasswordAsWritten(Some(pw), Some(pw), Some(tokenText), TokenFound(f.stored.value.expiresAt),
                                               now, hasSession, updateError);
               o.updateAttempted && (o.tokenDeleted <==> now <= t + 86400000)
  {
  }
}
