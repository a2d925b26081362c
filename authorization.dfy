// The authorization context (pkg/iam/pkg/iam/authorization.go): a session, optionally
// assuming another authorization, from which the caller's terminal, user and client
// application are read.
module Authorizations {
  import opened Wrappers
  import opened AzId
  import ApplicationIds
  import UserIds
  import TerminalIds
  import SessionIds

  /** The access errors of the iam package that the server operations return. */
  const ErrUserContextRequired: AzError := Msg("user context required")
  const ErrOperationNotAllowed: AzError := Msg("actor is not allowed perform action on the target resource")

  const AuthorizationMetadataKey: string := "Authorization"
  const AuthorizationMetadataKeyAlt: string := "authorization"

  /** Durations in nanoseconds, as Go's time.Duration counts them. */
  const Second: int := 1_000_000_000
  const Minute: int := 60 * Second
  const Hour: int := 60 * Minute

  const AccessTokenTTLDefault: int := 20 * Minute
  const AccessTokenTTLDefaultInSeconds: int := AccessTokenTTLDefault / Second
  const RefreshTokenTTLDefault: int := 30 * 24 * Hour

  lemma TokenLifetimes()
    ensures AccessTokenTTLDefaultInSeconds == 1200
    ensures RefreshTokenTTLDefault / Second == 2_592_000
  {
  }

  datatype Authorization = Authorization(
    assuming: Option<Authorization>,
    sessionID: SessionIds.SessionID,
    rawToken: string)
  {
    /** The session of the authorization this one stands in for, or the zero session when there is none. */
    function ParentSessionID(): (r: SessionIds.SessionID)
      ensures assuming.None? ==> r == SessionIds.Zero
      ensures assuming.Some? ==> r == assuming.value.sessionID
    {
      if assuming.Some? then assuming.value.sessionID else SessionIds.Zero
    }

    predicate IsStaticallyValid()
    {
      sessionID.IsStaticallyValid()
    }

    /** The context's terminal is valid and is the given one. */
    predicate IsTerminal(terminalID: TerminalIds.TerminalID)
    {
      sessionID.terminal.IsStaticallyValid() && sessionID.terminal.EqualsTerminalID(terminalID)
    }

    /** The client is a user agent and the context's user is the given one (valid or not). */
    predicate IsUser(userID: UserIds.UserID)
    {
      ApplicationIds.IsUserAgent(ClientApplicationIDNum()) && sessionID.terminal.user.EqualsUserID(userID)
    }

    predicate IsUserSubject()
    {
      ApplicationIds.IsUserAgent(ClientApplicationIDNum()) && sessionID.terminal.user.IsStaticallyValid()
    }

    predicate IsServiceClientContext()
    {
      ApplicationIds.IsService(ClientApplicationIDNum()) && !sessionID.terminal.user.IsStaticallyValid()
    }

    function UserID(): (r: UserIds.UserID)
    {
      sessionID.terminal.user
    }

    function UserIDPtr(): (r: Option<UserIds.UserID>)
      ensures r.None? <==> !UserID().IsStaticallyValid()
      ensures r.Some? ==> r.value == UserID()
    {
      sessionID.terminal.UserPtr()
    }

    function UserIDNum(): (r: UserIds.UserIDNum)
    {
      sessionID.terminal.user.idNum
    }

    function UserIDNumPtr(): (r: Option<UserIds.UserIDNum>)
      ensures r.None? <==> !UserID().IsStaticallyValid()
      ensures r.Some? ==> r.value == UserIDNum()
    {
      sessionID.terminal.user.IDNumPtr()
    }

    function TerminalID(): (r: TerminalIds.TerminalID)
    {
      sessionID.terminal
    }

    function TerminalIDNum(): (r: TerminalIds.TerminalIDNum)
    {
      sessionID.terminal.idNum
    }

    function TerminalIDNumPtr(): (r: Option<TerminalIds.TerminalIDNum>)
      ensures r.None? <==> !sessionID.terminal.IsStaticallyValid()
      ensures r.Some? ==> r.value == TerminalIDNum()
    {
      sessionID.terminal.IDNumPtr()
    }

    function ClientApplicationIDNum(): (r: ApplicationIds.ApplicationIDNum)
    {
      sessionID.terminal.application.idNum
    }

    function RawToken(): (r: string)
    {
      rawToken
    }
  }

  /** A context is never both a user subject and a service client. */
  lemma UserSubjectExcludesServiceClient(authz: Authorization)
    ensures !(authz.IsUserSubject() && authz.IsServiceClientContext())
  {
    var n := authz.ClientApplicationIDNum();
    if ApplicationIds.NumIsStaticallyValid(n) {
      ApplicationIds.ServiceXorUserAgent(n);
    }
  }

  /** IsUser of a valid user is a user-subject context, and a user subject IsUser of its own user. */
  lemma IsUserAndUserSubject(authz: Authorization, u: UserIds.UserID)
    ensures u.IsStaticallyValid() && authz.IsUser(u) ==> authz.IsUserSubject()
    ensures authz.IsUserSubject() ==> authz.IsUser(authz.UserID())
    ensures authz.IsUserSubject() && authz.IsUser(u) ==> u == authz.UserID()
  {
  }

  /** IsUser does not itself check the user: a user-agent context with the zero user IsUser of the zero user. */
  lemma IsUserOfZeroUser()
    ensures var app := ApplicationIds.ApplicationID(0x2000_0001);
      var authz := Authorization(None, SessionIds.SessionID(TerminalIds.TerminalID(app, UserIds.Zero, 1), 1), "");
      authz.IsUser(UserIds.Zero) && !authz.IsUserSubject()
  {
    UserIds.NumTestVectors();
  }

  /**
   * IsTerminal holds only for the context's own valid terminal, which then has a valid
   * user; so a service-client context, whose user is not valid, is never IsTerminal.
   */
  lemma IsTerminalFacts(authz: Authorization, t: TerminalIds.TerminalID)
    ensures authz.IsTerminal(t) <==> t.IsStaticallyValid() && t == authz.TerminalID()
    ensures authz.IsTerminal(t) ==> authz.UserID().IsStaticallyValid()
    ensures authz.IsServiceClientContext() ==> !authz.IsTerminal(t)
  {
  }

  /** A statically valid context has a valid terminal, a valid user and a valid session id-num. */
  lemma ValidContextParts(authz: Authorization)
    requires authz.IsStaticallyValid()
    ensures authz.TerminalIDNumPtr().Some? && authz.UserIDPtr().Some?
    ensures authz.IsTerminal(authz.TerminalID())
  {
  }
}
