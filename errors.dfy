// The repository's own error helpers: pkg/errors (entity errors and context wrapping)
// and pkg/errors/data (data-related errors). Go's `error` interface is a closed union
// here; a nil error is None.
module Errors {
  import opened Wrappers
  import opened Strings

  datatype Error =
    | Msg(text: string)
    | Entity(identifier: string, err: Option<Error>)
    | Wrap(msg: string, cause: Option<Error>)
    | DataWrapping(inner: Option<Error>)
    | DataMsg(msg: string)
    | DataMalformed(err: Option<Error>)
  {
    /**
     * The errors whose Error() does not dereference a nil error: an entity error or a
     * data wrapping needs its inner error, a context wrap only when its message is not
     * empty (an empty message returns before the cause is read).
     */
    predicate Printable()
    {
      match this
      case Msg(_) => true
      case Entity(_, err) => err.Some? && err.value.Printable()
      case Wrap(msg, cause) => msg == "" || cause.None? || cause.value.Printable()
      case DataWrapping(inner) => inner.Some? && inner.value.Printable()
      case DataMsg(_) => true
      case DataMalformed(err) => err.None? || err.value.Printable()
    }

    /** Error(). */
    function Message(): string
      requires Printable()
    {
      match this
      case Msg(text) => text
      case Entity(identifier, err) =>
        var errMsg := err.value.Message();
        if identifier != "" then
          if errMsg != "" then identifier + ": " + errMsg else identifier + " invalid"
        else if errMsg != "" then "entity " + errMsg
        else "entity invalid"
      case Wrap(msg, cause) =>
        if msg != "" && cause.Some? then msg + ": " + cause.value.Message() else msg
      case DataWrapping(inner) => inner.value.Message()
      case DataMsg(msg) => msg
      case DataMalformed(err) => if err.Some? then "malformed: " + err.value.Message() else "malformed"
    }
  }

  /** errors.Ent. */
  function Ent(entityIdentifier: string, err: Option<Error>): (r: Error)
    ensures r.Entity? && EntityIdentifier(r) == entityIdentifier
    ensures r.Printable() <==> err.Some? && err.value.Printable()
  {
    Entity(entityIdentifier, err)
  }

  /** errors.EntMsg: the message becomes the entity error's inner error. */
  function EntMsg(entityIdentifier: string, errMsg: string): (r: Error)
    ensures r.Entity? && r.Printable() && EntityIdentifier(r) == entityIdentifier
  {
    Entity(entityIdentifier, Some(Msg(errMsg)))
  }

  /** EntityIdentifier of an entity error. */
  function EntityIdentifier(e: Error): string
    requires e.Entity?
  {
    e.identifier
  }

  /** An entity error's text names the entity (or says "entity"), and ends with the reason or "invalid". */
  lemma EntityMessageShape(id: string, inner: Error)
    requires inner.Printable()
    ensures var m := Entity(id, Some(inner)).Message();
      (id != "" ==> HasPrefix(m, id)) &&
      (id == "" ==> HasPrefix(m, "entity ")) &&
      (inner.Message() != "" ==> HasSuffix(m, inner.Message())) &&
      (inner.Message() == "" ==> HasSuffix(m, " invalid"))
  {
  }

  /** EntMsg shows the message: "id: msg", or "entity msg" without an identifier. */
  lemma EntMsgShowsMessage(id: string, msg: string)
    requires msg != ""
    ensures id != "" ==> EntMsg(id, msg).Message() == id + ": " + msg
    ensures id == "" ==> EntMsg(id, msg).Message() == "entity " + msg
    ensures EntMsg("", "").Message() == "entity invalid"
  {
  }

  /** errors.Wrap never returns nil, and Unwrap gives back exactly the cause. */
  function WrapError(contextMessage: string, causeErr: Option<Error>): (r: Error)
    ensures Unwrap(r) == causeErr
    ensures r.Printable() <==> contextMessage == "" || causeErr.None? || causeErr.value.Printable()
  {
    Wrap(contextMessage, causeErr)
  }

  /** A context wrap reads "msg: cause" only with both present, and the bare message otherwise. */
  lemma WrapMessage(msg: string, cause: Option<Error>)
    requires Wrap(msg, cause).Printable()
    ensures msg != "" && cause.Some? ==> Wrap(msg, cause).Message() == msg + ": " + cause.value.Message()
    ensures msg == "" || cause.None? ==> Wrap(msg, cause).Message() == msg
    ensures HasPrefix(Wrap(msg, cause).Message(), msg)
  {
  }

  /**
   * errors.Unwrap, as the methods are meant: a wrap and an entity error give their cause,
   * the other errors have no Unwrap method and give nil.
   */
  function Unwrap(e: Error): (r: Option<Error>)
    ensures r.Some? ==> r.value < e
    ensures e.Wrap? ==> r == e.cause
  {
    match e
    case Entity(_, err) => err
    case Wrap(_, cause) => cause
    case _ => None
  }

  /** errors.Unwrap as entity.go writes it: an entity error unwraps to (a copy of) itself. */
  function UnwrapAsWritten(e: Error): (r: Option<Error>)
    ensures e.Entity? ==> r == Some(e)
    ensures !e.Entity? ==> r == Unwrap(e)
  {
    match e
    case Entity(_, _) => Some(e)
    case _ => Unwrap(e)
  }

  /** errors.Is with the corrected Unwrap: walk the chain until the target or its end. */
  function Is(e: Error, target: Error): bool
  {
    e == target ||
    match e
    case Entity(_, Some(c)) => Is(c, target)
    case Wrap(_, Some(c)) => Is(c, target)
    case _ => false
  }

  /** The walk Is does with the corrected Unwrap follows Unwrap, step by step, to the target. */
  lemma IsFollowsUnwrap(e: Error, target: Error)
    ensures Is(e, target) <==> e == target || (Unwrap(e).Some? && Is(Unwrap(e).value, target))
  {
  }

  /** With the corrected Unwrap, both an entity error and a wrap are found to contain their cause. */
  lemma IsFindsCause(id: string, msg: string, cause: Error)
    ensures Is(Entity(id, Some(cause)), cause)
    ensures Is(Wrap(msg, Some(cause)), cause)
    ensures Is(Entity(id, Some(Wrap(msg, Some(cause)))), cause)
  {
  }

  /**
   * errors.Is with the as-written Unwrap, given a step budget: None when the budget runs
   * out before the chain ends.
   */
  function IsAsWritten(e: Error, target: Error, fuel: nat): (r: Option<bool>)
    decreases fuel
  {
    if fuel == 0 then None
    else if e == target then Some(true)
    else match UnwrapAsWritten(e)
      case None => Some(false)
      case Some(next) => IsAsWritten(next, target, fuel - 1)
  }

  /**
   * With the as-written Unwrap, asking whether an entity error is anything but itself never
   * finishes, whatever the budget; in particular its own cause is never found.
   */
  lemma {:induction false} IsAsWrittenDiverges(e: Error, target: Error, fuel: nat)
    requires e.Entity? && e != target
    ensures IsAsWritten(e, target, fuel) == None
    decreases fuel
  {
    if fuel > 0 {
      IsAsWrittenDiverges(e, target, fuel - 1);
    }
  }

  lemma EntityCauseNeverFound(id: string, cause: Error, fuel: nat)
    ensures IsAsWritten(Entity(id, Some(cause)), cause, fuel) == None
    ensures Is(Entity(id, Some(cause)), cause)
  {
    var e := Entity(id, Some(cause));
    assert cause < e;
    IsAsWrittenDiverges(e, cause, fuel);
  }

  /** ErrUnimplemented. */
  const ErrUnimplemented: Error := Msg("unimplemented")
}

// pkg/errors/data: data-related errors.
module DataErrors {
  import opened Wrappers
  import opened Errors

  /** data.Err: a wrapping whose text is the inner error's. */
  function Err(err: Error): (r: Error)
    requires err.Printable()
    ensures r.Printable() && r.Message() == err.Message()
  {
    DataWrapping(Some(err))
  }

  /** data.Malformed. */
  function Malformed(err: Option<Error>): (r: Error)
    requires err.Some? ==> err.value.Printable()
    ensures r.Printable()
    ensures err.None? ==> r.Message() == "malformed"
    ensures err.Some? ==> r.Message() == "malformed: " + err.value.Message()
  {
    DataMalformed(err)
  }

  const ErrEmpty: Error := DataMsg("empty")
  const ErrMalformed: Error := Malformed(None)
  const ErrTypeUnsupported: Error := DataMsg("type unsupported")

  lemma SentinelMessages()
    ensures ErrEmpty.Message() == "empty"
    ensures ErrMalformed.Message() == "malformed" == Malformed(None).Message()
    ensures ErrTypeUnsupported.Message() == "type unsupported"
  {
  }
}
