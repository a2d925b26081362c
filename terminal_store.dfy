// The terminal table of the IAM core (pkg/iam/pkg/iamserver/core_terminal.go): one row per
// registered terminal, keyed by its id-num; registration, authentication, verification
// (with or without replay) and soft deletion, each as a guarded update of that table.
module TerminalStore {
  import opened Wrappers
  import opened AzId
  import opened Strings
  import ApplicationIds
  import UserIds
  import TerminalIds
  import Authorizations
  import IdGeneration

  /** The resource a terminal is verified through (iam.TerminalVerificationResourceType*). */
  datatype VerificationType =
    | PhoneNumber             // "phone-number"
    | EmailAddress            // "email-address"
    | OAuthAuthorizationCode  // "oauth2-authorization-code"
    | OAuthImplicit           // "oauth2-implicit"
    | OAuthClientCredentials  // "oauth2-client-credentials"
    | OAuthPassword
    | OtherVerificationType(name: string)

  /** The soft-deletion columns _md_ts, _md_tid and _md_uid. */
  datatype Deletion = Deletion(time: int, terminalIDNum: TerminalIds.TerminalIDNum, userIDNum: UserIds.UserIDNum)

  /** The primary key of the terminal table, the id_num column. */
  datatype TerminalKey = TerminalKey(idNum: TerminalIds.TerminalIDNum)

  /** A row of the terminal table, without its key. */
  datatype TerminalRow = TerminalRow(
    applicationIDNum: ApplicationIds.ApplicationIDNum,
    userIDNum: UserIds.UserIDNum,
    secret: string,
    creationTime: int,
    displayName: string,
    verificationType: VerificationType,
    verificationID: int,
    verificationTime: Option<int>,
    deletion: Option<Deletion>)

  const ErrAuthorizationCodeAlreadyClaimed: AzError := EntMsg("authorization code", "already claimed")
  const ErrTerminalVerificationCodeMismatch: AzError := EntMsg("terminal verification code", "mismatch")
  const ErrTerminalVerificationCodeExpired: AzError := EntMsg("terminal verification code", "expired")
  const ErrTerminalVerificationResourceConflict: AzError := EntMsg("terminal verification resource", "conflict")
  /** errTerminalVerificationConfirmationReplayed. */
  const ErrConfirmationReplayed: AzError := EntMsg("terminal verification confirmation", "replayed")
  /** What the database reports for an insert whose id-num is already taken. */
  const ErrDuplicateKey: AzError := Named("duplicate key")

  /** generateTerminalSecret gives the unpadded base64url text of 16 random bytes. */
  const SecretLength := 22

  /** The outcome of ApplicationByID. */
  datatype AppLookup = AppFound | AppNotFound | AppLookupFailed(cause: AzError)

  /** TerminalRegistrationInputData; the verification time is decided by the registration itself. */
  datatype RegistrationInput = RegistrationInput(
    applicationID: ApplicationIds.ApplicationID,
    userID: UserIds.UserID,
    displayName: string,
    verificationType: VerificationType,
    verificationID: int)

  datatype Registration = Registered(terminalID: TerminalIds.TerminalID, secret: string) | RegistrationFailed(err: AzError)

  /** The result of ConfirmTerminalAuthorization when it does not panic. */
  datatype Confirmation = Confirmed(secret: string, userID: UserIds.UserID) | ConfirmFailed(err: AzError)

  /**
   * What the e-mail or phone-number verifier says about the code, and, when it accepts
   * it, whether the resource turned out to be owned by another user in the meantime.
   */
  datatype CodeCheck = CodeAccepted(claimedByOther: bool) | CodeMismatch | CodeExpired | VerifierFailed(cause: AzError)

  /** Only the OAuth client-credentials and password flows get a secret at registration. */
  predicate GeneratesSecret(t: VerificationType)
  {
    t == OAuthClientCredentials || t == OAuthPassword
  }

  /** fmt's %v of a bool. */
  function BoolText(b: bool): (r: string)
    ensures r == "true" || r == "false"
    ensures (r == "true") <==> b
  {
    if b then "true" else "false"
  }

  /**
   * The checks RegisterTerminal makes before inserting, in their order; None when all of
   * them pass.
   */
  function RegistrationCheck(input: RegistrationInput, app: AppLookup): (r: Option<AzError>)
    ensures r.None? <==>
      input.applicationID.IsStaticallyValid() &&
      (input.userID.IsZero() || input.userID.IsStaticallyValid()) &&
      app == AppFound &&
      (input.userID.IsStaticallyValid() <==> ApplicationIds.IsUserAgent(input.applicationID.idNum))
    ensures !input.applicationID.IsStaticallyValid() ==>
      r == Some(ArgMsgWith("input", "application ID check", [Ent("ApplicationID", None)]))
    ensures (input.applicationID.IsStaticallyValid() && app.AppLookupFailed? &&
             (input.userID.IsZero() || input.userID.IsStaticallyValid())) ==>
      r == Some(Wrap("ApplicationByID", app.cause))
  {
    var user := input.userID;
    var isUserAgent := ApplicationIds.IsUserAgent(input.applicationID.idNum);
    if !input.applicationID.IsStaticallyValid() then
      Some(ArgMsgWith("input", "application ID check", [Ent("ApplicationID", None)]))
    else if !user.IsZero() && !user.IsStaticallyValid() then
      Some(ArgMsgWith("input", "user ID check", [Ent("Data.UserID", None)]))
    else if app.AppLookupFailed? then
      Some(Wrap("ApplicationByID", app.cause))
    else if app.AppNotFound? then
      Some(ArgMsgWith("input", "application check", [EntMsg("ApplicationID", "reference invalid")]))
    else if (user.IsStaticallyValid() && !isUserAgent) || (!user.IsStaticallyValid() && isUserAgent) then
      Some(ArgMsgWith("input", "user and application combination invalid",
        [EntMsg("Data.UserID", "statically valid: " + BoolText(user.IsStaticallyValid())),
         EntMsg("ApplicationID", "user agent: " + BoolText(isUserAgent))]))
    else None
  }

  /** A registration that passed its checks is either a user agent acting for a valid user or a service with none. */
  lemma RegisteredCombinations(input: RegistrationInput, app: AppLookup)
    requires RegistrationCheck(input, app).None?
    ensures ApplicationIds.IsUserAgent(input.applicationID.idNum) ==> input.userID.IsStaticallyValid()
    ensures ApplicationIds.IsService(input.applicationID.idNum) ==> input.userID.IsZero()
  {
    ApplicationIds.ServiceXorUserAgent(input.applicationID.idNum);
  }

  /** The row registerTerminalInsecure inserts. */
  function NewRow(input: RegistrationInput, ctxTime: int, newSecret: string): (row: TerminalRow)
    ensures GeneratesSecret(input.verificationType) ==> row.secret == newSecret && row.verificationTime == Some(ctxTime)
    ensures !GeneratesSecret(input.verificationType) ==> row.secret == "" && row.verificationTime.None?
    ensures row.displayName == TrimSpace(input.displayName) && row.deletion.None?
    ensures row.applicationIDNum == input.applicationID.idNum && row.userIDNum == input.userID.idNum
  {
    var generateSecret := GeneratesSecret(input.verificationType);
    TerminalRow(
      applicationIDNum := input.applicationID.idNum,
      userIDNum := input.userID.idNum,
      secret := if generateSecret then newSecret else "",
      creationTime := ctxTime,
      displayName := TrimSpace(input.displayName),
      verificationType := input.verificationType,
      verificationID := input.verificationID,
      verificationTime := if generateSecret then Some(ctxTime) else None,
      deletion := None)
  }

  class TerminalTable {
    var rows: map<TerminalKey, TerminalRow>

    /** A row carries a secret exactly when it is verified. */
    ghost predicate Valid()
      reads this
    {
      forall k :: k in rows ==> (rows[k].verificationTime.Some? <==> rows[k].secret != "")
    }

    constructor ()
      ensures rows == map[] && Valid()
    {
      rows := map[];
    }

    /**
     * AuthenticateTerminal: a missing, deleted or unverified terminal is not authenticated
     * and has no owner; otherwise the secret must be the stored one, and the owner is the
     * row's user.
     */
    function AuthenticateTerminal(terminalID: TerminalIds.TerminalID, terminalSecret: string): (r: (bool, UserIds.UserID, Option<AzError>))
      reads this
      ensures r.2.None?
      ensures (TerminalKey(terminalID.idNum) !in rows || rows[TerminalKey(terminalID.idNum)].deletion.Some? ||
               rows[TerminalKey(terminalID.idNum)].verificationTime.None?) ==> r == (false, UserIds.Zero, None)
      ensures r.0 <==> TerminalKey(terminalID.idNum) in rows && rows[TerminalKey(terminalID.idNum)].deletion.None? &&
                       rows[TerminalKey(terminalID.idNum)].verificationTime.Some? && rows[TerminalKey(terminalID.idNum)].secret == terminalSecret
      ensures r.0 ==> r.1 == UserIds.UserID(rows[TerminalKey(terminalID.idNum)].userIDNum)
    {
      var k := TerminalKey(terminalID.idNum);
      if k !in rows then (false, UserIds.Zero, None)
      else
        var row := rows[k];
        if row.deletion.Some? || row.verificationTime.None? then (false, UserIds.Zero, None)
        else (row.secret == terminalSecret, UserIds.UserID(row.userIDNum), None)
    }

    /** In a table whose verified rows all hold a secret, the empty secret authenticates nobody. */
    lemma EmptySecretNeverAuthenticates(terminalID: TerminalIds.TerminalID)
      requires Valid()
      ensures !AuthenticateTerminal(terminalID, "").0
    {
      if TerminalKey(terminalID.idNum) in rows {
        assert rows[TerminalKey(terminalID.idNum)].verificationTime.Some? <==> rows[TerminalKey(terminalID.idNum)].secret != "";
      }
    }

    /**
     * RegisterTerminal and registerTerminalInsecure: the checks, then a fresh id-num from
     * idRead, then the insert, which fails when the id-num is taken. A secret-generating
     * type gets newSecret and is verified at once; any other starts unverified, without a
     * secret.
     */
    method RegisterTerminal(ctxTime: int, input: RegistrationInput, app: AppLookup,
                            idRead: IdGeneration.RandomRead, newSecret: string)
      returns (r: Registration, mutated: bool)
      requires Valid()
      requires idRead.Filled? ==> |idRead.bytes| == 8
      requires |newSecret| == SecretLength
      modifies this
      ensures Valid()
      ensures mutated <==> r.Registered?
      ensures RegistrationCheck(input, app).Some? ==>
        r == RegistrationFailed(RegistrationCheck(input, app).value) && rows == old(rows)
      ensures RegistrationCheck(input, app).None? && idRead.ReadFailed? ==>
        r == RegistrationFailed(Wrap("ID generation", Wrap("random number source reading", idRead.cause))) && rows == old(rows)
      ensures RegistrationCheck(input, app).None? && idRead.Filled? ==>
        var n := IdGeneration.GenerateTerminalIDNum(0, idRead).value;
        if TerminalKey(n) in old(rows) then
          r == RegistrationFailed(Wrap("data insert", ErrDuplicateKey)) && rows == old(rows)
        else
          rows == old(rows)[TerminalKey(n) := NewRow(input, ctxTime, newSecret)] &&
          r == Registered(TerminalIds.NewTerminalID(input.applicationID, input.userID, n),
                          if GeneratesSecret(input.verificationType) then newSecret else "")
      ensures r.Registered? && GeneratesSecret(input.verificationType) ==>
        AuthenticateTerminal(r.terminalID, r.secret) == (true, input.userID, None)
      ensures r.Registered? && !GeneratesSecret(input.verificationType) ==>
        forall s :: !AuthenticateTerminal(r.terminalID, s).0
    {
      assert newSecret != "" by { assert |newSecret| == SecretLength; }
      var check := RegistrationCheck(input, app);
      if check.Some? {
        return RegistrationFailed(check.value), false;
      }
      var termID := IdGeneration.GenerateTerminalIDNum(0, idRead);
      if termID.Err? {
        return RegistrationFailed(Wrap("ID generation", termID.error)), false;
      }
      var n := termID.value;
      if TerminalKey(n) in rows {
        return RegistrationFailed(Wrap("data insert", ErrDuplicateKey)), false;
      }
      var row := NewRow(input, ctxTime, newSecret);
      rows := rows[TerminalKey(n) := row];
      r := Registered(TerminalIds.NewTerminalID(input.applicationID, input.userID, n), row.secret);
      mutated := true;
    }

    /**
     * DeleteTerminal: only the context's own terminal may be deleted; the row is marked
     * deleted when it is still live, and the result says whether that happened.
     */
    method DeleteTerminal(ctx: Authorizations.Authorization, terminalIDToDelete: TerminalIds.TerminalID, ctxTime: int)
      returns (stateChanged: bool, err: Option<AzError>)
      requires Valid()
      modifies this
      ensures Valid()
      ensures !ctx.IsTerminal(terminalIDToDelete) ==>
        !stateChanged && err == Some(Authorizations.ErrOperationNotAllowed) && rows == old(rows)
      ensures ctx.IsTerminal(terminalIDToDelete) ==>
        err.None? &&
        (stateChanged <==> TerminalKey(terminalIDToDelete.idNum) in old(rows) && old(rows)[TerminalKey(terminalIDToDelete.idNum)].deletion.None?)
      ensures stateChanged ==>
        rows == old(rows)[TerminalKey(terminalIDToDelete.idNum) :=
          old(rows)[TerminalKey(terminalIDToDelete.idNum)].(deletion := Some(Deletion(ctxTime, ctx.TerminalIDNum(), ctx.UserIDNum())))]
      ensures !stateChanged ==> rows == old(rows)
      ensures ctx.IsTerminal(terminalIDToDelete) ==> forall s :: !AuthenticateTerminal(terminalIDToDelete, s).0
    {
      if !ctx.IsTerminal(terminalIDToDelete) {
        return false, Some(Authorizations.ErrOperationNotAllowed);
      }
      var k := TerminalKey(terminalIDToDelete.idNum);
      if k !in rows {
        return false, None;
      }
      var row := rows[k];
      if row.deletion.Some? {
        return false, None;
      }
      rows := rows[k := row.(deletion := Some(Deletion(ctxTime, ctx.TerminalIDNum(), ctx.UserIDNum())))];
      return true, None;
    }

    /**
     * setTerminalVerified: an unverified row gets newSecret and the verification time; for a
     * row already verified (or missing) a replay is refused when disallowReplay, and otherwise
     * the stored secret is returned; reading the secret of a missing row panics.
     */
    method SetTerminalVerified(terminalIDNum: TerminalIds.TerminalIDNum, disallowReplay: bool, ctxTime: int, newSecret: string)
      returns (r: Outcome<Result<string, AzError>>)
      requires Valid()
      requires |newSecret| == SecretLength
      modifies this
      ensures Valid()
      ensures TerminalKey(terminalIDNum) in old(rows) && old(rows)[TerminalKey(terminalIDNum)].verificationTime.None? ==>
        r == Returned(Ok(newSecret)) &&
        rows == old(rows)[TerminalKey(terminalIDNum) := old(rows)[TerminalKey(terminalIDNum)].(secret := newSecret, verificationTime := Some(ctxTime))]
      ensures !(TerminalKey(terminalIDNum) in old(rows) && old(rows)[TerminalKey(terminalIDNum)].verificationTime.None?) ==>
        rows == old(rows) &&
        (disallowReplay ==> r == Returned(Err(ErrConfirmationReplayed))) &&
        (!disallowReplay && TerminalKey(terminalIDNum) in rows ==> r == Returned(Ok(rows[TerminalKey(terminalIDNum)].secret))) &&
        (!disallowReplay && TerminalKey(terminalIDNum) !in rows ==> r == Panic)
      ensures r.Returned? && r.value.Ok? ==>
        TerminalKey(terminalIDNum) in rows && rows[TerminalKey(terminalIDNum)].verificationTime.Some? &&
        rows[TerminalKey(terminalIDNum)].secret == r.value.value && r.value.value != ""
    {
      assert newSecret != "" by { assert |newSecret| == SecretLength; }
      var k := TerminalKey(terminalIDNum);
      if k in rows {
        var row := rows[k];
        if row.verificationTime.None? {
          rows := rows[k := row.(secret := newSecret, verificationTime := Some(ctxTime))];
          return Returned(Ok(newSecret));
        }
      }
      if disallowReplay {
        return Returned(Err(ErrConfirmationReplayed));
      }
      if k !in rows {
        return Panic;
      }
      return Returned(Ok(rows[k].secret));
    }

    /**
     * ConfirmTerminalAuthorization: an unknown terminal is a reference error; for a terminal
     * with a valid user the verification type decides: e-mail and phone codes go through
     * the verifier, an authorization code may not be replayed, any other type panics; then
     * the terminal is marked verified.
     */
    method ConfirmTerminalAuthorization(terminalID: TerminalIds.TerminalID, code: CodeCheck, ctxTime: int, newSecret: string)
      returns (r: Outcome<Confirmation>)
      requires Valid()
      requires |newSecret| == SecretLength
      modifies this
      ensures Valid()
      ensures TerminalKey(terminalID.idNum) !in old(rows) ==>
        r == Returned(ConfirmFailed(ArgMsg("terminalID", "reference invalid"))) && rows == old(rows)
      ensures r.Returned? && r.value.ConfirmFailed? ==> rows == old(rows)
      ensures r.Returned? && r.value.Confirmed? ==>
        TerminalKey(terminalID.idNum) in rows && rows[TerminalKey(terminalID.idNum)].verificationTime.Some? &&
        rows[TerminalKey(terminalID.idNum)].secret == r.value.secret &&
        r.value.userID == UserIds.UserID(old(rows)[TerminalKey(terminalID.idNum)].userIDNum) &&
        rows[TerminalKey(terminalID.idNum)].deletion == old(rows)[TerminalKey(terminalID.idNum)].deletion
      ensures (TerminalKey(terminalID.idNum) in old(rows) && UserIds.NumIsStaticallyValid(old(rows)[TerminalKey(terminalID.idNum)].userIDNum) &&
               old(rows)[TerminalKey(terminalID.idNum)].verificationType == OAuthAuthorizationCode &&
               old(rows)[TerminalKey(terminalID.idNum)].verificationTime.Some?) ==>
        r == Returned(ConfirmFailed(ErrAuthorizationCodeAlreadyClaimed))
      ensures (TerminalKey(terminalID.idNum) in old(rows) && UserIds.NumIsStaticallyValid(old(rows)[TerminalKey(terminalID.idNum)].userIDNum) &&
               old(rows)[TerminalKey(terminalID.idNum)].verificationType in {EmailAddress, PhoneNumber}) ==>
        (code == CodeMismatch ==> r == Returned(ConfirmFailed(ErrTerminalVerificationCodeMismatch))) &&
        (code == CodeExpired ==> r == Returned(ConfirmFailed(ErrTerminalVerificationCodeExpired))) &&
        (code.VerifierFailed? ==> r == Panic) &&
        (code == CodeAccepted(true) ==> r == Returned(ConfirmFailed(ErrTerminalVerificationResourceConflict)))
      ensures var k := TerminalKey(terminalID.idNum);
        k in old(rows) && UserIds.NumIsStaticallyValid(old(rows)[k].userIDNum) && !IsConfirmableType(old(rows)[k].verificationType) ==>
        r == Panic && rows == old(rows)
      ensures var k := TerminalKey(terminalID.idNum);
        k in old(rows) && ReachesSetVerified(old(rows)[k], code) && old(rows)[k].verificationTime.None? ==>
        r == Returned(Confirmed(newSecret, UserIds.UserID(old(rows)[k].userIDNum))) &&
        rows == old(rows)[k := old(rows)[k].(secret := newSecret, verificationTime := Some(ctxTime))]
      ensures var k := TerminalKey(terminalID.idNum);
        k in old(rows) && ReachesSetVerified(old(rows)[k], code) && old(rows)[k].verificationTime.Some? &&
        !DisallowsReplay(old(rows)[k]) ==>
        r == Returned(Confirmed(old(rows)[k].secret, UserIds.UserID(old(rows)[k].userIDNum))) && rows == old(rows)
      ensures r.Panic? ==> rows == old(rows)
    {
      var k := TerminalKey(terminalID.idNum);
      if k !in rows {
        return Returned(ConfirmFailed(ArgMsg("terminalID", "reference invalid")));
      }
      var termData := rows[k];
      var disallowReplay := false;
      if UserIds.NumIsStaticallyValid(termData.userIDNum) {
        match termData.verificationType
        case EmailAddress =>
          var e := CodeOutcome(code);
          if e.Some? {
            return e.value;
          }
        case PhoneNumber =>
          var e := CodeOutcome(code);
          if e.Some? {
            return e.value;
          }
        case OAuthAuthorizationCode =>
          disallowReplay := true;
        case _ =>
          return Panic;
      }
      var termSecret := SetTerminalVerified(terminalID.idNum, disallowReplay, ctxTime, newSecret);
      match termSecret
      case Panic => return Panic;
      case Returned(Err(_)) => return Returned(ConfirmFailed(ErrAuthorizationCodeAlreadyClaimed));
      case Returned(Ok(s)) => return Returned(Confirmed(s, UserIds.UserID(termData.userIDNum)));
    }
  }

  /** The verification types ConfirmTerminalAuthorization handles for a terminal with a valid user. */
  predicate IsConfirmableType(t: VerificationType)
  {
    t == EmailAddress || t == PhoneNumber || t == OAuthAuthorizationCode
  }

  /**
   * Whether a confirmation gets past the verification-type switch to setTerminalVerified:
   * the terminal has no valid user, or it is an authorization-code terminal, or an e-mail or
   * phone-number code was accepted and the resource is not claimed by another user.
   */
  predicate ReachesSetVerified(row: TerminalRow, code: CodeCheck)
  {
    !UserIds.NumIsStaticallyValid(row.userIDNum) ||
    row.verificationType == OAuthAuthorizationCode ||
    ((row.verificationType == EmailAddress || row.verificationType == PhoneNumber) && code == CodeAccepted(false))
  }

  /** Only an authorization code of a terminal with a valid user may not be confirmed twice. */
  predicate DisallowsReplay(row: TerminalRow)
  {
    UserIds.NumIsStaticallyValid(row.userIDNum) && row.verificationType == OAuthAuthorizationCode
  }

  /** How a code check ends the confirmation early, if it does. */
  function CodeOutcome(code: CodeCheck): (r: Option<Outcome<Confirmation>>)
    ensures r.None? <==> code == CodeAccepted(false)
  {
    match code
    case CodeMismatch => Some(Returned(ConfirmFailed(ErrTerminalVerificationCodeMismatch)))
    case CodeExpired => Some(Returned(ConfirmFailed(ErrTerminalVerificationCodeExpired)))
    case VerifierFailed(_) => Some(Panic)
    case CodeAccepted(claimedByOther) =>
      if claimedByOther then Some(Returned(ConfirmFailed(ErrTerminalVerificationResourceConflict))) else None
  }
}
