// Identifier generation (pkg/iam/pkg/iamserver/*_service_server_base__azgen.go and the
// app-id-gen tool): random bytes masked down to the identifier bits, with the requested
// embedded-field bits added; and the insert-retry loop that creates application instances.
module IdGeneration {
  import opened Wrappers
  import opened AzId
  import ApplicationIds
  import TerminalIds
  import SessionIds

  /** What crypto/rand.Read gives: the buffer filled, or an error. */
  datatype RandomRead = Filled(bytes: seq<byte>) | ReadFailed(cause: AzError)

  /** GenerateApplicationIDNum. */
  function GenerateApplicationIDNum(embeddedFieldBits: bv32, read: RandomRead): (r: Result<ApplicationIds.ApplicationIDNum, AzError>)
    requires read.Filled? ==> |read.bytes| == 4
    ensures read.ReadFailed? <==> r.Err?
    ensures read.ReadFailed? ==> r.error == Wrap("random number source reading", read.cause)
  {
    match read
    case ReadFailed(e) => Err(Wrap("random number source reading", e))
    case Filled(idBytes) =>
      Ok((embeddedFieldBits & ApplicationIds.EmbeddedFieldsMask) |
         (Uint32BE(idBytes) & ApplicationIds.IdentifierBitsMask))
  }

  /**
   * A generated application id-num carries exactly the requested embedded bits and the
   * random identifier bits; every other bit, the sign bit included, is clear.
   */
  lemma ApplicationIDNumBits(embeddedFieldBits: bv32, idBytes: seq<byte>)
    requires |idBytes| == 4
    ensures var n := GenerateApplicationIDNum(embeddedFieldBits, Filled(idBytes)).value;
      n & ApplicationIds.EmbeddedFieldsMask == embeddedFieldBits & ApplicationIds.EmbeddedFieldsMask &&
      n & ApplicationIds.IdentifierBitsMask == Uint32BE(idBytes) & ApplicationIds.IdentifierBitsMask &&
      n & 0x8C00_0000 == 0
  {
  }

  /** Argument bits outside the embedded-fields mask have no effect. */
  lemma ApplicationIDNumIgnoresOtherBits(e1: bv32, e2: bv32, idBytes: seq<byte>)
    requires |idBytes| == 4
    requires e1 & ApplicationIds.EmbeddedFieldsMask == e2 & ApplicationIds.EmbeddedFieldsMask
    ensures GenerateApplicationIDNum(e1, Filled(idBytes)) == GenerateApplicationIDNum(e2, Filled(idBytes))
  {
  }

  /** A generated application id-num is non-negative, and valid exactly when its random identifier bits are not all zero. */
  lemma ApplicationIDNumValidity(embeddedFieldBits: bv32, idBytes: seq<byte>)
    requires |idBytes| == 4
    ensures var n := GenerateApplicationIDNum(embeddedFieldBits, Filled(idBytes)).value;
      n & 0x8000_0000 == 0 &&
      (ApplicationIds.NumIsStaticallyValid(n) <==> Uint32BE(idBytes) & ApplicationIds.IdentifierBitsMask != 0)
  {
    var n := GenerateApplicationIDNum(embeddedFieldBits, Filled(idBytes)).value;
    ApplicationIDNumBits(embeddedFieldBits, idBytes);
    SignBitClear(n);
    ValidityOfSignless(n);
  }

  lemma SignBitClear(n: bv32)
    requires n & 0x8C00_0000 == 0
    ensures n & 0x8000_0000 == 0
  {
  }

  lemma ValidityOfSignless(n: bv32)
    requires n & 0x8000_0000 == 0
    ensures ApplicationIds.NumIsStaticallyValid(n) <==> n & ApplicationIds.IdentifierBitsMask != 0
  {
  }

  /** With the public user-agent bits requested, a valid result is a public user agent. */
  lemma ApplicationIDNumPublicUserAgent(idBytes: seq<byte>)
    requires |idBytes| == 4
    ensures var n := GenerateApplicationIDNum(ApplicationIds.UserAgentAuthorizationPublicBits, Filled(idBytes)).value;
      ApplicationIds.NumIsStaticallyValid(n) ==> ApplicationIds.IsUserAgentAuthorizationPublic(n) && !ApplicationIds.IsFirstParty(n)
  {
  }

  /** GenerateTerminalIDNum: the embedded-fields mask is zero, so the argument plays no part. */
  function GenerateTerminalIDNum(embeddedFieldBits: bv64, read: RandomRead): (r: Result<TerminalIds.TerminalIDNum, AzError>)
    requires read.Filled? ==> |read.bytes| == 8
    ensures read.ReadFailed? <==> r.Err?
    ensures read.ReadFailed? ==> r.error == Wrap("random number source reading", read.cause)
  {
    match read
    case ReadFailed(e) => Err(Wrap("random number source reading", e))
    case Filled(idBytes) =>
      Ok((embeddedFieldBits & TerminalIds.EmbeddedFieldsMask) |
         (Uint64BE(idBytes) & TerminalIds.IdentifierBitsMask))
  }

  /**
   * A generated terminal id-num is the drawn big-endian value with its top byte cleared,
   * whatever the argument asks for; it is valid exactly when those 56 bits are not all zero.
   */
  lemma TerminalIDNumFacts(embeddedFieldBits: bv64, idBytes: seq<byte>)
    requires |idBytes| == 8
    ensures GenerateTerminalIDNum(embeddedFieldBits, Filled(idBytes)).value == Uint64BE(idBytes) & 0x00FF_FFFF_FFFF_FFFF
    ensures TerminalIds.NumIsStaticallyValid(GenerateTerminalIDNum(embeddedFieldBits, Filled(idBytes)).value) <==>
      Uint64BE(idBytes) & 0x00FF_FFFF_FFFF_FFFF != 0
  {
  }

  /** GenerateSessionIDNum: the embedded-fields mask is zero, so the argument plays no part. */
  function GenerateSessionIDNum(embeddedFieldBits: bv32, read: RandomRead): (r: Result<SessionIds.SessionIDNum, AzError>)
    requires read.Filled? ==> |read.bytes| == 4
    ensures read.ReadFailed? <==> r.Err?
    ensures read.ReadFailed? ==> r.error == Wrap("random number source reading", read.cause)
  {
    match read
    case ReadFailed(e) => Err(Wrap("random number source reading", e))
    case Filled(idBytes) =>
      Ok((embeddedFieldBits & SessionIds.EmbeddedFieldsMask) |
         (Uint32BE(idBytes) & SessionIds.IdentifierBitsMask))
  }

  /**
   * A generated session id-num is the drawn big-endian value with its top byte cleared,
   * whatever the argument asks for; it is valid exactly when those 24 bits are not all zero.
   */
  lemma SessionIDNumFacts(embeddedFieldBits: bv32, idBytes: seq<byte>)
    requires |idBytes| == 4
    ensures GenerateSessionIDNum(embeddedFieldBits, Filled(idBytes)).value == Uint32BE(idBytes) & 0x00FF_FFFF
    ensures SessionIds.NumIsStaticallyValid(GenerateSessionIDNum(embeddedFieldBits, Filled(idBytes)).value) <==>
      Uint32BE(idBytes) & 0x00FF_FFFF != 0
  {
  }

  /** The embedded bits the app-id-gen tool asks for, or None for an unsupported type (where it panics). */
  function AppTypeBits(firstParty: bool, clientTyp: string): (r: Option<bv32>)
    ensures r.Some? <==> clientTyp in {"service", "ua-public", "user-agent-public", "user-agent-direct-auth",
                                      "ua-confidential", "user-agent-confidential", "user-agent-3-legged-auth"}
  {
    var typeInfo: bv32 := if firstParty then ApplicationIds.FirstPartyBits else 0;
    if clientTyp == "service" then Some(typeInfo | ApplicationIds.ServiceBits)
    else if clientTyp in {"ua-public", "user-agent-public", "user-agent-direct-auth"} then
      Some(typeInfo | ApplicationIds.UserAgentAuthorizationPublicBits)
    else if clientTyp in {"ua-confidential", "user-agent-confidential", "user-agent-3-legged-auth"} then
      Some(typeInfo | ApplicationIds.UserAgentAuthorizationConfidentialBits)
    else None
  }

  /** GenerateApplicationID of the app-id-gen tool; an unsupported type or a read error panics. */
  function GenerateApplicationID(firstParty: bool, clientTyp: string, read: RandomRead): (r: Outcome<ApplicationIds.ApplicationID>)
    requires read.Filled? ==> |read.bytes| == 4
    ensures r.Panic? <==> AppTypeBits(firstParty, clientTyp).None? || read.ReadFailed?
  {
    match AppTypeBits(firstParty, clientTyp)
    case None => Panic
    case Some(typeInfo) =>
      match GenerateApplicationIDNum(typeInfo, read)
      case Err(_) => Panic
      case Ok(n) => Returned(ApplicationIds.ApplicationID(n))
  }

  /** What the tool's application types give, whenever the generated id comes out valid. */
  lemma GeneratedApplicationKinds(firstParty: bool, clientTyp: string, idBytes: seq<byte>)
    requires |idBytes| == 4
    requires GenerateApplicationID(firstParty, clientTyp, Filled(idBytes)).Returned?
    ensures var id := GenerateApplicationID(firstParty, clientTyp, Filled(idBytes)).value;
      id.IsStaticallyValid() ==>
        (ApplicationIds.IsFirstParty(id.idNum) <==> firstParty) &&
        (clientTyp == "service" ==> ApplicationIds.IsService(id.idNum)) &&
        (clientTyp in {"ua-public", "user-agent-public", "user-agent-direct-auth"} ==>
          ApplicationIds.IsUserAgentAuthorizationPublic(id.idNum)) &&
        (clientTyp in {"ua-confidential", "user-agent-confidential", "user-agent-3-legged-auth"} ==>
          ApplicationIds.IsUserAgentAuthorizationConfidential(id.idNum))
  {
    var bits := AppTypeBits(firstParty, clientTyp).value;
    ApplicationIDNumBits(bits, idBytes);
  }

  /** The result of one INSERT of a new application row. */
  datatype InsertOutcome =
    | Inserted
    | PrimaryKeyConflict(cause: AzError)  // pq error 23505 on the primary-key constraint
    | InsertFailed(cause: AzError)

  const AttemptNumMax := 5

  /** The outcome of createApplicationInstanceInsecure and the number of inserts it issued. */
  datatype Creation = Creation(result: Outcome<Result<ApplicationIds.ApplicationID, AzError>>, inserts: nat)

  /**
   * The creation loop from attempt attemptNum on: each attempt draws a new id-num (a read
   * error panics) and inserts it; only a primary-key conflict is retried, and not after
   * attempt AttemptNumMax.
   */
  function CreateFrom(random: seq<RandomRead>, outcomes: seq<InsertOutcome>, attemptNum: nat): (c: Creation)
    requires attemptNum <= AttemptNumMax < |random| && AttemptNumMax < |outcomes|
    requires forall i :: 0 <= i < |random| && random[i].Filled? ==> |random[i].bytes| == 4
    ensures c.inserts <= AttemptNumMax + 1 - attemptNum
    ensures c.result.Returned? ==> c.inserts >= 1
    decreases AttemptNumMax - attemptNum
  {
    match GenerateApplicationIDNum(0, random[attemptNum])
    case Err(_) => Creation(Panic, 0)
    case Ok(n) =>
      match outcomes[attemptNum]
      case Inserted => Creation(Returned(Ok(ApplicationIds.ApplicationID(n))), 1)
      case InsertFailed(e) => Creation(Returned(Err(Wrap("insert", e))), 1)
      case PrimaryKeyConflict(e) =>
        if attemptNum >= AttemptNumMax then Creation(Returned(Err(Wrap("insert max attempts", e))), 1)
        else
          var rest := CreateFrom(random, outcomes, attemptNum + 1);
          Creation(rest.result, rest.inserts + 1)
  }

  /** createApplicationInstanceInsecure: the loop itself, counting attempts. */
  method CreateApplicationInstance(random: seq<RandomRead>, outcomes: seq<InsertOutcome>) returns (c: Creation)
    requires AttemptNumMax < |random| && AttemptNumMax < |outcomes|
    requires forall i :: 0 <= i < |random| && random[i].Filled? ==> |random[i].bytes| == 4
    ensures c == CreateFrom(random, outcomes, 0)
  {
    var attemptNum := 0;
    while true
      invariant 0 <= attemptNum <= AttemptNumMax
      invariant CreateFrom(random, outcomes, 0) ==
        Creation(CreateFrom(random, outcomes, attemptNum).result, CreateFrom(random, outcomes, attemptNum).inserts + attemptNum)
      decreases AttemptNumMax - attemptNum
    {
      var newInstanceIDNum := GenerateApplicationIDNum(0, random[attemptNum]);
      if newInstanceIDNum.Err? {
        return Creation(Panic, attemptNum);
      }
      var outcome := outcomes[attemptNum];
      if outcome.Inserted? {
        return Creation(Returned(Ok(ApplicationIds.ApplicationID(newInstanceIDNum.value))), attemptNum + 1);
      }
      if outcome.InsertFailed? {
        return Creation(Returned(Err(Wrap("insert", outcome.cause))), attemptNum + 1);
      }
      if attemptNum >= AttemptNumMax {
        return Creation(Returned(Err(Wrap("insert max attempts", outcome.cause))), attemptNum + 1);
      }
      attemptNum := attemptNum + 1;
    }
  }

  /** Every insert before the last was a primary-key conflict. */
  lemma {:induction false} ConflictsBeforeLastInsert(random: seq<RandomRead>, outcomes: seq<InsertOutcome>, a: nat)
    requires a <= AttemptNumMax < |random| && AttemptNumMax < |outcomes|
    requires forall i :: 0 <= i < |random| && random[i].Filled? ==> |random[i].bytes| == 4
    ensures var c := CreateFrom(random, outcomes, a);
      c.result.Returned? ==> forall j :: a <= j < a + c.inserts - 1 ==> outcomes[j].PrimaryKeyConflict?
    decreases AttemptNumMax - a
  {
    if GenerateApplicationIDNum(0, random[a]).Ok? && outcomes[a].PrimaryKeyConflict? && a < AttemptNumMax {
      var rest := CreateFrom(random, outcomes, a + 1);
      assert CreateFrom(random, outcomes, a) == Creation(rest.result, rest.inserts + 1);
      ConflictsBeforeLastInsert(random, outcomes, a + 1);
    }
  }

  /**
   * The last insert decides: a success is an Inserted outcome for the id drawn on that
   * attempt; a failure is a non-conflict error, or the sixth conflict in a row.
   */
  lemma {:induction false} LastInsertDecides(random: seq<RandomRead>, outcomes: seq<InsertOutcome>, a: nat)
    requires a <= AttemptNumMax < |random| && AttemptNumMax < |outcomes|
    requires forall i :: 0 <= i < |random| && random[i].Filled? ==> |random[i].bytes| == 4
    ensures var c := CreateFrom(random, outcomes, a);
      c.result.Returned? ==>
        (c.result.value.Ok? ==>
          outcomes[a + c.inserts - 1].Inserted? &&
          c.result.value.value.idNum == GenerateApplicationIDNum(0, random[a + c.inserts - 1]).value) &&
        (c.result.value.Err? ==>
          outcomes[a + c.inserts - 1].InsertFailed? ||
          (a + c.inserts == AttemptNumMax + 1 && outcomes[AttemptNumMax].PrimaryKeyConflict?))
    decreases AttemptNumMax - a
  {
    if GenerateApplicationIDNum(0, random[a]).Ok? && outcomes[a].PrimaryKeyConflict? && a < AttemptNumMax {
      var rest := CreateFrom(random, outcomes, a + 1);
      assert CreateFrom(random, outcomes, a) == Creation(rest.result, rest.inserts + 1);
      LastInsertDecides(random, outcomes, a + 1);
      assert a + 1 + rest.inserts - 1 == a + (rest.inserts + 1) - 1;
    }
  }

  /** The loop issues at most six inserts, and gives up with "insert max attempts" only after six conflicts. */
  lemma CreationBounded(random: seq<RandomRead>, outcomes: seq<InsertOutcome>)
    requires AttemptNumMax < |random| && AttemptNumMax < |outcomes|
    requires forall i :: 0 <= i < |random| && random[i].Filled? ==> |random[i].bytes| == 4
    ensures var c := CreateFrom(random, outcomes, 0);
      c.inserts <= 6 &&
      (c.result.Returned? && c.result.value.Err? && outcomes[c.inserts - 1].PrimaryKeyConflict? ==>
        c.inserts == 6 && forall j :: 0 <= j < 6 ==> outcomes[j].PrimaryKeyConflict?)
  {
    ConflictsBeforeLastInsert(random, outcomes, 0);
    LastInsertDecides(random, outcomes, 0);
  }
}
